/** The main results about the Cassandra agent, over every schedule of its threads. */
module CassandraSafety {
  import opened Common
  import opened CassandraRuntime
  import opened CassandraAgent
  import opened CassandraReferences
  import P = CassandraPermits
  import D = CassandraDrivers
  import L = CassandraLedger

  // ---- guarded operations keep their session anchored ----

  predicate Guarded(pc: Pc) {
    Operating(pc) && pc.guarded
  }

  /** The session is registered, or the thread that deregistered it still waits for session.mu. */
  ghost predicate Anchored(s: State, a: Agent) {
    (a.name in s.registered && s.registered[a.name] == a) || exists u :: u in s.pcs && s.pcs[u] == CloseFound(a)
  }

  ghost predicate Guarding(s: State) {
    forall t :: t in s.pcs && Guarded(s.pcs[t]) ==> Anchored(s, s.pcs[t].agent)
  }

  /** The thread at `pc` is not the anchor of `a`, or stays it. */
  predicate KeepsAnchor(pc: Pc, pc': Pc, a: Agent) {
    pc == CloseFound(a) ==> pc' == pc
  }

  lemma AnchorKept(s: State, t: Tid, s': State, a: Agent)
    requires Anchored(s, a) && t in s.pcs && t in s'.pcs && s'.pcs == s.pcs[t := s'.pcs[t]]
    requires KeepsAnchor(s.pcs[t], s'.pcs[t], a)
    requires forall n :: n in s.registered ==>
      (n in s'.registered && s'.registered[n] == s.registered[n]) || s'.pcs[t] == CloseFound(s.registered[n])
    ensures Anchored(s', a)
  {
    if a.name in s.registered && s.registered[a.name] == a {
      assert a.name in s'.registered || s'.pcs[t] == CloseFound(a);
    } else {
      var u :| u in s.pcs && s.pcs[u] == CloseFound(a);
      assert s'.pcs[u] == CloseFound(a);
    }
  }

  /** A thread that is guarded after a step was guarded before, on the same session, or has
      just locked a registered one. */
  predicate GuardFrom(registered: map<string, Agent>, pc: Pc, pc': Pc) {
    Guarded(pc') ==>
      || (Guarded(pc) && pc.agent == pc'.agent)
      || (pc'.agent.name in registered && registered[pc'.agent.name] == pc'.agent)
  }

  lemma InnerGuard(registered: map<string, Agent>, pc: Pc, r: Runtime, ev: Event, shut: set<Driver>, spare: Driver)
    requires Inner(ev) && InnerReady(pc, r, ev)
    ensures GuardFrom(registered, pc, InnerStep(pc, r, ev, shut, spare).0) && !pc.CloseFound?
  {
  }

  lemma LocalGuard(registered: map<string, Agent>, pc: Pc, ev: Event)
    requires Local(ev) && LocalReady(registered, pc, ev)
    ensures GuardFrom(registered, pc, LocalStep(registered, pc, ev))
    ensures pc.CloseFound? ==> ev.CloseLock? && LocalStep(registered, pc, ev) == CloseLocked(pc.agent)
  {
  }

  /** What a step may do to the registered sessions, to a guard, and to a waiting close. */
  ghost predicate Shape(s: State, t: Tid, s': State) {
    && t in s.pcs && t in s'.pcs && s'.pcs == s.pcs[t := s'.pcs[t]]
    && (forall n :: n in s.registered ==>
          (n in s'.registered && s'.registered[n] == s.registered[n]) || s'.pcs[t] == CloseFound(s.registered[n]))
    && GuardFrom(s.registered, s.pcs[t], s'.pcs[t])
    && (s.pcs[t].CloseFound? ==> MuFree(s, s.pcs[t].agent.serial) && s'.pcs[t] == CloseLocked(s.pcs[t].agent))
  }

  lemma OuterShape(s: State, t: Tid, ev: Event)
    requires Enabled(s, t, ev) && !Inner(ev) && !Local(ev)
    ensures Shape(s, t, Next(s, t, ev))
  {
    match ev
    case OpenAcquire(pool, metadata) =>
      assert Shape(s, t, Acquire(s, t, s.pcs[t].name, s.pcs[t].key, pool, metadata));
    case OpenRegister => assert Shape(s, t, Register(s, t));
    case Release => assert Shape(s, t, ReleaseRuntime(s, t, s.pcs[t].key));
    case CloseDriver => assert Shape(s, t, CloseOne(s, t));
    case CloseLookup(name) => assert Shape(s, t, Deregister(s, t, name));
    case TestCreate(key, pool, metadata) => assert Shape(s, t, StartTest(s, t, Fresh(key, pool, metadata)));
  }

  lemma StepShape(s: State, t: Tid, ev: Event)
    requires Enabled(s, t, ev)
    ensures Shape(s, t, Next(s, t, ev))
  {
    if Local(ev) {
      LocalGuard(s.registered, s.pcs[t], ev);
    } else if Inner(ev) {
      InnerGuard(s.registered, s.pcs[t], s.heap[RuntimeOf(s.pcs[t])], ev, s.shut, s.created);
    } else {
      OuterShape(s, t, ev);
    }
  }

  lemma ShapeKeepsGuarding(s: State, t: Tid, s': State)
    requires Guarding(s) && Shape(s, t, s')
    ensures Guarding(s')
  {
    forall x | x in s'.pcs && Guarded(s'.pcs[x])
      ensures Anchored(s', s'.pcs[x].agent)
    {
      AnchorKept(s, t, s', s'.pcs[x].agent);
    }
  }

  // ---- a runtime out of the map is closed, or some thread is about to close it ----

  predicate Disposes(pc: Pc, rt: RtId) {
    (pc.ClosingRuntime? || pc.Testing?) && pc.rt == rt
  }

  ghost predicate Tracked(s: State, rt: RtId)
    requires rt < |s.heap|
  {
    Current(s, rt) || s.heap[rt].closed || exists t :: t in s.pcs && Disposes(s.pcs[t], rt)
  }

  ghost predicate AllTracked(s: State) {
    forall rt :: 0 <= rt < |s.heap| ==> Tracked(s, rt)
  }

  /** Thread `t` steps; each runtime stays current, stays closed, or gets or keeps a disposer. */
  ghost predicate Disposal(s: State, t: Tid, s': State) {
    && t in s.pcs && t in s'.pcs && s'.pcs == s.pcs[t := s'.pcs[t]] && |s.heap| <= |s'.heap|
    && (forall i :: 0 <= i < |s.heap| ==> (s.heap[i].closed ==> s'.heap[i].closed))
    && (forall i :: 0 <= i < |s.heap| && Current(s, i) ==> Current(s', i) || Disposes(s'.pcs[t], i))
    && (forall i :: 0 <= i < |s.heap| && Disposes(s.pcs[t], i) ==> s'.heap[i].closed || Disposes(s'.pcs[t], i))
    && (forall i :: |s.heap| <= i < |s'.heap| ==> Current(s', i) || Disposes(s'.pcs[t], i))
  }

  lemma DisposalKeeps(s: State, t: Tid, s': State)
    requires AllTracked(s) && Disposal(s, t, s')
    ensures AllTracked(s')
  {
    forall rt | 0 <= rt < |s'.heap|
      ensures Tracked(s', rt)
    {
      if rt < |s.heap| && !Current(s, rt) && !s.heap[rt].closed {
        assert Tracked(s, rt);
        var u :| u in s.pcs && Disposes(s.pcs[u], rt);
        assert u != t ==> s'.pcs[u] == s.pcs[u];
      }
    }
  }

  lemma InnerDisposal(pc: Pc, r: Runtime, ev: Event, shut: set<Driver>, spare: Driver)
    requires Inner(ev) && InnerReady(pc, r, ev)
    ensures var (pc', r') := InnerStep(pc, r, ev, shut, spare);
            && r'.key == r.key && (r.closed ==> r'.closed)
            && (pc.ClosingRuntime? ==> r'.closed) && (pc.Testing? ==> pc' == pc)
  {
  }

  lemma AcquireDisposal(s: State, t: Tid, pool: Option<int>, metadata: Option<int>)
    requires Known(s) && t in s.pcs && s.pcs[t].OpenChecked?
    ensures Disposal(s, t, Acquire(s, t, s.pcs[t].name, s.pcs[t].key, pool, metadata))
  {
  }

  lemma ReleaseDisposal(s: State, t: Tid)
    requires Known(s) && t in s.pcs && s.pcs[t].Releasing?
    ensures Disposal(s, t, ReleaseRuntime(s, t, s.pcs[t].key))
  {
  }

  lemma OuterDisposal(s: State, t: Tid, ev: Event)
    requires Known(s) && Enabled(s, t, ev) && !Inner(ev) && !Local(ev)
    ensures Disposal(s, t, Next(s, t, ev))
  {
    match ev
    case OpenAcquire(pool, metadata) => AcquireDisposal(s, t, pool, metadata);
    case Release => ReleaseDisposal(s, t);
    case TestCreate(key, pool, metadata) => TestDisposal(s, t, Fresh(key, pool, metadata));
    case OpenRegister => RegisterDisposal(s, t);
    case CloseDriver => CloseOneDisposal(s, t);
    case CloseLookup(name) => DeregisterDisposal(s, t, name);
  }

  lemma TestDisposal(s: State, t: Tid, r: Runtime)
    requires Known(s) && t in s.pcs && s.pcs[t].Idle?
    ensures Disposal(s, t, StartTest(s, t, r))
  {
  }

  lemma RegisterDisposal(s: State, t: Tid)
    requires Known(s) && t in s.pcs && s.pcs[t].OpenValidated?
    ensures Disposal(s, t, Register(s, t))
  {
  }

  lemma CloseOneDisposal(s: State, t: Tid)
    requires Known(s) && Enabled(s, t, CloseDriver)
    ensures Disposal(s, t, CloseOne(s, t))
  {
  }

  lemma DeregisterDisposal(s: State, t: Tid, name: string)
    requires Known(s) && Enabled(s, t, CloseLookup(name))
    ensures Disposal(s, t, Deregister(s, t, name))
  {
  }

  lemma LocalDisposal(registered: map<string, Agent>, pc: Pc, ev: Event)
    requires Local(ev) && LocalReady(registered, pc, ev)
    ensures forall rt :: Disposes(pc, rt) ==> Disposes(LocalStep(registered, pc, ev), rt)
  {
  }

  lemma ReplaceDisposal(s: State, t: Tid, pc: Pc, rt: RtId, r: Runtime, created: nat)
    requires t in s.pcs && rt < |s.heap| && r.key == s.heap[rt].key && (s.heap[rt].closed ==> r.closed)
    requires forall i :: Disposes(s.pcs[t], i) ==> (i == rt && r.closed) || Disposes(pc, i)
    ensures Disposal(s, t, Go(Put(s, rt, r), t, pc).(created := created))
  {
  }

  lemma InnerNextDisposal(s: State, t: Tid, ev: Event)
    requires Known(s) && InnerEnabled(s, t, ev)
    ensures Disposal(s, t, InnerNext(s, t, ev))
  {
    var rt := RuntimeOf(s.pcs[t]);
    var (pc, r) := InnerStep(s.pcs[t], s.heap[rt], ev, s.shut, s.created);
    InnerDisposal(s.pcs[t], s.heap[rt], ev, s.shut, s.created);
    ReplaceDisposal(s, t, pc, rt, r, InnerNext(s, t, ev).created);
  }

  lemma StepDisposal(s: State, t: Tid, ev: Event)
    requires Known(s) && Enabled(s, t, ev)
    ensures Disposal(s, t, Next(s, t, ev))
  {
    if Local(ev) {
      LocalDisposal(s.registered, s.pcs[t], ev);
    } else if Inner(ev) {
      InnerNextDisposal(s, t, ev);
    } else {
      OuterDisposal(s, t, ev);
    }
  }

  // ---- everything every schedule keeps ----

  ghost predicate Housed(s: State) {
    exists home :: D.Housed(s, home)
  }

  ghost predicate Inv(s: State) {
    References(s) && P.Permits(s) && Guarding(s) && AllTracked(s) && Housed(s)
  }

  lemma StepKeepsHoused(s: State, t: Tid, ev: Event)
    requires Housed(s) && P.Permits(s) && Enabled(s, t, ev)
    ensures Housed(Next(s, t, ev))
  {
    var home :| D.Housed(s, home);
    var home' := D.StepKeepsHomes(s, t, ev, home);
  }

  lemma StepKeepsInv(s: State, t: Tid, ev: Event)
    requires Inv(s) && Enabled(s, t, ev)
    ensures Inv(Next(s, t, ev))
  {
    StepKeepsReferences(s, t, ev);
    P.StepKeepsPermits(s, t, ev);
    StepShape(s, t, ev);
    ShapeKeepsGuarding(s, t, Next(s, t, ev));
    StepDisposal(s, t, ev);
    DisposalKeeps(s, t, Next(s, t, ev));
    StepKeepsHoused(s, t, ev);
  }

  lemma {:induction false} RunKeepsInv(s: State, moves: seq<Move>)
    requires Inv(s) && Schedule(s, moves)
    ensures Inv(Run(s, moves))
    decreases |moves|
  {
    if moves != [] {
      StepKeepsInv(s, moves[0].t, moves[0].ev);
      RunKeepsInv(Next(s, moves[0].t, moves[0].ev), moves[1..]);
    }
  }

  /** A state some schedule reaches from an idle agent. */
  ghost predicate Reachable(s: State) {
    exists s0, moves :: Init(s0) && Schedule(s0, moves) && Run(s0, moves) == s
  }

  lemma ReachableInv(s: State)
    requires Reachable(s)
    ensures Inv(s)
  {
    var s0, moves :| Init(s0) && Schedule(s0, moves) && Run(s0, moves) == s;
    InitReferences(s0);
    P.InitPermits(s0);
    D.InitHomes(s0);
    RunKeepsInv(s0, moves);
  }

  // ---- main results ----

  /** In every reachable state: active operations are at most the permits held, and those at most the pool;
      operations that hold both permits are at most the metadata limit, so the rest of the pool stays open to
      other work; and when no request runs, every permit is back, whatever timed out before. */
  lemma PermitsInEveryRun(s: State, rt: RtId)
    requires Reachable(s) && rt < |s.heap|
    ensures 0 <= s.heap[rt].active == P.Count(s.pcs, P.Active, rt) <= s.heap[rt].permits
    ensures s.heap[rt].permits == P.Count(s.pcs, P.General, rt) <= s.heap[rt].poolSize
    ensures L.Tally(P.MetadataInPool(s.pcs), rt) <= P.Count(s.pcs, P.Metadata, rt) <= s.heap[rt].metadataLimit
    ensures (forall t :: t in s.pcs ==> s.pcs[t] == Idle) ==> s.heap[rt].permits == s.heap[rt].metadataPermits == 0
  {
    ReachableInv(s);
    P.PermitBounds(s, rt);
    if forall t :: t in s.pcs ==> s.pcs[t] == Idle {
      P.QuiescentPermits(s, rt);
    }
  }

  /** The counter of a mapped runtime is the number of opens past acquireRuntime, registered
      sessions and closes before releaseRuntime; all of them find this runtime under their key. */
  lemma ReferenceAccounting(s: State, key: string)
    requires Reachable(s) && key in s.runtimes
    ensures s.runtimes[key] < |s.heap| && !s.heap[s.runtimes[key]].closed
    ensures s.heap[s.runtimes[key]].references ==
            |set t | t in s.pcs && OwesRelease(s.pcs[t]) && RuntimeOf(s.pcs[t]) == s.runtimes[key]| +
            |set n | n in s.registered && s.registered[n].rt == s.runtimes[key]|
    ensures s.heap[s.runtimes[key]].references >= 1
  {
    ReachableInv(s);
    MappedReferences(s, key);
  }

  lemma MappedReferences(s: State, key: string)
    requires References(s) && key in s.runtimes
    ensures s.runtimes[key] < |s.heap| && !s.heap[s.runtimes[key]].closed
    ensures s.heap[s.runtimes[key]].references ==
            |set t | t in s.pcs && OwesRelease(s.pcs[t]) && RuntimeOf(s.pcs[t]) == s.runtimes[key]| +
            |set n | n in s.registered && s.registered[n].rt == s.runtimes[key]|
    ensures s.heap[s.runtimes[key]].references >= 1
  {
    var rt, b := s.runtimes[key], Book(s);
    assert Current(s, rt);
    assert L.Carriers(b.debts, rt) == set t | t in s.pcs && OwesRelease(s.pcs[t]) && RuntimeOf(s.pcs[t]) == rt;
    assert L.Carriers(b.members, rt) == set n | n in s.registered && s.registered[n].rt == rt;
    assert b.refs[b.runtimes[key]] == L.Owed(b, rt);
  }

  /** Whoever owes a release finds its own runtime in the map, so releaseRuntime never meets a
      missing runtime or a later one that reused the key. */
  lemma DebtorFindsItsRuntime(s: State, t: Tid)
    requires Reachable(s) && t in s.pcs && OwesRelease(s.pcs[t])
    ensures KeyOf(s.pcs[t]) in s.runtimes && s.runtimes[KeyOf(s.pcs[t])] == RuntimeOf(s.pcs[t])
  {
    ReachableInv(s);
    assert PcKnown(s, s.pcs[t]);
    assert t in Book(s).debts;
    assert L.Current(Book(s), Book(s).debts[t]);
  }

  /** While an operation that locked a registered session runs, its runtime stays in the map,
      referenced and open, and no thread is about to close it. */
  lemma GuardedRuntimeStaysOpen(s: State, t: Tid)
    requires Reachable(s) && t in s.pcs && Guarded(s.pcs[t])
    ensures var rt := s.pcs[t].agent.rt;
            Current(s, rt) && !s.heap[rt].closed && s.heap[rt].references >= 1 &&
            forall u :: u in s.pcs ==> !Disposes(s.pcs[u], rt)
  {
    ReachableInv(s);
    var a := s.pcs[t].agent;
    assert Anchored(s, a);
    AnchorIsCurrent(s, a);
    ReferenceAccounting(s, s.heap[a.rt].key);
    CurrentIsNotDisposed(s, a.rt);
  }

  lemma AnchorIsCurrent(s: State, a: Agent)
    requires References(s) && Anchored(s, a)
    ensures Current(s, a.rt)
  {
    var b := Book(s);
    if a.name in s.registered && s.registered[a.name] == a {
      assert L.Current(b, b.members[a.name]);
    } else {
      var u :| u in s.pcs && s.pcs[u] == CloseFound(a);
      assert L.Current(b, b.debts[u]);
    }
  }

  lemma CurrentIsNotDisposed(s: State, rt: RtId)
    requires Known(s) && Current(s, rt)
    ensures forall u :: u in s.pcs ==> !Disposes(s.pcs[u], rt)
  {
    forall u | u in s.pcs
      ensures !Disposes(s.pcs[u], rt)
    {
      assert PcKnown(s, s.pcs[u]);
    }
  }

  /** A driver session that an active operation obtained is neither closed nor taken out for
      closing, as long as the operation's runtime is open; and that is certain when the
      operation locked a registered session. */
  lemma InUseIsNeverClosed(s: State, t: Tid, d: Driver)
    requires Reachable(s) && t in s.pcs && s.pcs[t].OpActive? && d in s.pcs[t].obtained
    ensures s.pcs[t].agent.rt < |s.heap|
    ensures s.pcs[t].guarded ==> !s.heap[s.pcs[t].agent.rt].closed
    ensures !s.heap[s.pcs[t].agent.rt].closed ==>
              d !in s.shut && forall u :: u in s.pcs ==> d !in Hand(s.pcs[u])
  {
    ReachableInv(s);
    var home :| D.Housed(s, home);
    assert D.Backed(s.heap, s.pcs[t], home);
    if s.pcs[t].guarded {
      GuardedRuntimeStaysOpen(s, t);
    }
    if !s.heap[s.pcs[t].agent.rt].closed {
      forall u | u in s.pcs
        ensures d !in Hand(s.pcs[u])
      {
        assert D.Carried(u, s.pcs[u], home);
      }
    }
  }

  /** The places a driver session can be in. */
  datatype Slot =
    | LiveSlot(rt: RtId, keyspace: string)
    | RetiredSlot(rt: RtId, index: nat)
    | HandSlot(t: Tid, index: nat)
    | ShutSlot

  predicate Occupies(s: State, d: Driver, slot: Slot) {
    match slot
    case LiveSlot(rt, k) => rt < |s.heap| && k in s.heap[rt].sessions && s.heap[rt].sessions[k] == d
    case RetiredSlot(rt, i) => rt < |s.heap| && i < |s.heap[rt].retired| && s.heap[rt].retired[i] == d
    case HandSlot(t, i) => t in s.pcs && i < |Hand(s.pcs[t])| && Hand(s.pcs[t])[i] == d
    case ShutSlot => d in s.shut
  }

  /** No driver session is lost. */
  lemma SomewhereAlways(s: State, d: Driver) returns (slot: Slot)
    requires Reachable(s) && d < s.created
    ensures Occupies(s, d, slot)
  {
    ReachableInv(s);
    var home :| D.Housed(s, home);
    assert D.Located(s, d, home[d]);
    match home[d]
    case InLive(rt, k) => slot := LiveSlot(rt, k);
    case InRetired(rt) =>
      var i :| 0 <= i < |s.heap[rt].retired| && s.heap[rt].retired[i] == d;
      slot := RetiredSlot(rt, i);
    case InHand(t) =>
      var i :| 0 <= i < |Hand(s.pcs[t])| && Hand(s.pcs[t])[i] == d;
      slot := HandSlot(t, i);
    case Shut => slot := ShutSlot;
  }

  /** No driver session is in two places: not in two maps, twice in a list, or closed and
      still about to be handed out or closed again. */
  lemma NowhereTwice(s: State, d: Driver, p: Slot, q: Slot)
    requires Reachable(s) && Occupies(s, d, p) && Occupies(s, d, q)
    ensures p == q && d < s.created
  {
    ReachableInv(s);
    var home :| D.Housed(s, home);
    SameSlot(s, d, p, q, home);
  }

  lemma SameSlot(s: State, d: Driver, p: Slot, q: Slot, home: D.Homes)
    requires D.Housed(s, home) && Occupies(s, d, p) && Occupies(s, d, q)
    ensures p == q && d < s.created
  {
    SlotHome(s, d, p, home);
    SlotHome(s, d, q, home);
    match p
    case RetiredSlot(rt, i) =>
      assert D.Stored(rt, s.heap[rt], home);
    case HandSlot(t, i) =>
      assert D.Carried(t, s.pcs[t], home);
    case _ =>
  }

  lemma SlotHome(s: State, d: Driver, slot: Slot, home: D.Homes)
    requires D.Housed(s, home) && Occupies(s, d, slot)
    ensures d in home
    ensures match slot
            case LiveSlot(rt, k) => home[d] == D.InLive(rt, k)
            case RetiredSlot(rt, _) => home[d] == D.InRetired(rt)
            case HandSlot(t, _) => home[d] == D.InHand(t)
            case ShutSlot => home[d] == D.Shut
  {
    match slot
    case LiveSlot(rt, k) => assert D.Stored(rt, s.heap[rt], home);
    case RetiredSlot(rt, i) => assert D.Stored(rt, s.heap[rt], home) && s.heap[rt].retired[i] in s.heap[rt].retired;
    case HandSlot(t, i) => assert D.Carried(t, s.pcs[t], home) && Hand(s.pcs[t])[i] in Hand(s.pcs[t]);
    case ShutSlot =>
  }

  /** session.Close is never called twice on one driver session. */
  lemma ClosedOnce(s: State, t: Tid)
    requires Reachable(s) && t in s.pcs && ClosesDrivers(s.pcs[t])
    ensures Hand(s.pcs[t])[0] !in s.shut
  {
    if Hand(s.pcs[t])[0] in s.shut {
      NowhereTwice(s, Hand(s.pcs[t])[0], HandSlot(t, 0), ShutSlot);
    }
  }

  /** Once the requests have drained and every session has been closed, no runtime is left for
      the final sweep of closeAllSessions, every runtime ever created is closed, and so is
      every driver session. */
  lemma ShutdownLeavesNothing(s: State)
    requires Reachable(s) && s.registered == map[] && forall t :: t in s.pcs ==> s.pcs[t] == Idle
    ensures s.runtimes == map[]
    ensures forall rt :: 0 <= rt < |s.heap| ==> s.heap[rt].closed
    ensures forall d: Driver :: d < s.created ==> d in s.shut
  {
    ReachableInv(s);
    NoneOwed(s);
    assert L.Balanced(Book(s));
    forall rt | 0 <= rt < |s.heap|
      ensures s.heap[rt].closed
    {
      assert Tracked(s, rt);
    }
    var home: D.Homes :| D.Housed(s, home);
    assert forall rt :: 0 <= rt < |s.heap| ==> D.Stored(rt, s.heap[rt], home);
    forall d: Driver | d < s.created
      ensures d in s.shut
    {
      assert D.Located(s, d, home[d]);
    }
  }

  lemma NoneOwed(s: State)
    requires s.registered == map[] && forall t :: t in s.pcs ==> s.pcs[t] == Idle
    ensures forall rt :: L.Owed(Book(s), rt) == 0
  {
    forall rt
      ensures L.Owed(Book(s), rt) == 0
    {
      L.TallyZero(Book(s).debts, rt);
      L.TallyZero(Book(s).members, rt);
    }
  }

  // ---- a session that left the live map never comes back ----

  predicate Gone(s: State, d: Driver) {
    d < s.created && forall rt, k :: 0 <= rt < |s.heap| && k in s.heap[rt].sessions ==> s.heap[rt].sessions[k] != d
  }

  predicate Lacks(pc: Pc, d: Driver) {
    pc.OpActive? ==> d !in pc.obtained
  }

  lemma InnerObtains(pc: Pc, r: Runtime, ev: Event, shut: set<Driver>, spare: Driver, d: Driver)
    requires Inner(ev) && InnerReady(pc, r, ev)
    requires d != spare && (forall k :: k in r.sessions ==> r.sessions[k] != d)
    ensures var (pc', r') := InnerStep(pc, r, ev, shut, spare);
            (forall k :: k in r'.sessions ==> r'.sessions[k] != d) && (Lacks(pc, d) ==> Lacks(pc', d))
  {
  }

  /** The driver session stays gone, and whoever lacks it still does. */
  predicate StaysGone(s: State, s': State, d: Driver) {
    Gone(s', d) && forall x :: x in s.pcs && Lacks(s.pcs[x], d) ==> x in s'.pcs && Lacks(s'.pcs[x], d)
  }

  lemma InnerStaysGone(s: State, t: Tid, ev: Event, d: Driver)
    requires InnerEnabled(s, t, ev) && Gone(s, d)
    ensures StaysGone(s, InnerNext(s, t, ev), d)
  {
    InnerObtains(s.pcs[t], s.heap[RuntimeOf(s.pcs[t])], ev, s.shut, s.created, d);
  }

  lemma LocalStaysGone(s: State, t: Tid, ev: Event, d: Driver)
    requires t in s.pcs && Local(ev) && LocalReady(s.registered, s.pcs[t], ev) && Gone(s, d)
    ensures StaysGone(s, Go(s, t, LocalStep(s.registered, s.pcs[t], ev)), d)
  {
    D.LocalCargo(s.registered, s.pcs[t], ev);
  }

  lemma StepStaysGone(s: State, t: Tid, ev: Event, d: Driver)
    requires Enabled(s, t, ev) && Gone(s, d)
    ensures StaysGone(s, Next(s, t, ev), d)
  {
    if Inner(ev) {
      InnerStaysGone(s, t, ev, d);
    } else if Local(ev) {
      LocalStaysGone(s, t, ev, d);
    } else {
      OuterStaysGone(s, t, ev, d);
    }
  }

  lemma OuterStaysGone(s: State, t: Tid, ev: Event, d: Driver)
    requires Enabled(s, t, ev) && Gone(s, d) && !Inner(ev) && !Local(ev)
    ensures var s' := Next(s, t, ev);
            Gone(s', d) && s'.pcs == s.pcs[t := s'.pcs[t]] && (Lacks(s.pcs[t], d) ==> Lacks(s'.pcs[t], d))
  {
  }

  /** An operation that does not have a driver session which was retired, taken out or closed
      never obtains it, in any continuation of the run. */
  lemma {:induction false} NeverObtainedAgain(s: State, moves: seq<Move>, t: Tid, d: Driver)
    requires Schedule(s, moves) && Gone(s, d) && t in s.pcs && Lacks(s.pcs[t], d)
    ensures Gone(Run(s, moves), d) && t in Run(s, moves).pcs && Lacks(Run(s, moves).pcs[t], d)
    decreases |moves|
  {
    if moves != [] {
      StepStaysGone(s, moves[0].t, moves[0].ev, d);
      NeverObtainedAgain(Next(s, moves[0].t, moves[0].ev), moves[1..], t, d);
    }
  }

  /** A retired, taken or closed driver session is not in any live map. */
  lemma RetiredIsGone(s: State, d: Driver, slot: Slot)
    requires Reachable(s) && Occupies(s, d, slot) && !slot.LiveSlot?
    ensures Gone(s, d)
  {
    NowhereTwice(s, d, slot, slot);
    forall rt, k | 0 <= rt < |s.heap| && k in s.heap[rt].sessions
      ensures s.heap[rt].sessions[k] != d
    {
      if s.heap[rt].sessions[k] == d {
        NowhereTwice(s, d, slot, LiveSlot(rt, k));
      }
    }
  }
}
