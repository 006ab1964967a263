/** What every interleaving keeps about reference counts: the counter of a runtime is
    exactly the number of opens, registered sessions and closes that still owe a
    release, and all of them point at the runtime that the map holds under their key. */
module CassandraReferences {
  import opened Common
  import opened CassandraRuntime
  import opened CassandraAgent
  import L = CassandraLedger

  /** A thread past acquireRuntime that has not yet run releaseRuntime. */
  predicate OwesRelease(pc: Pc) {
    pc.OpenHolding? || pc.OpenValidated? || pc.Releasing? || pc.CloseFound? || pc.CloseLocked?
  }

  function KeyOf(pc: Pc): string
    requires OwesRelease(pc)
  {
    if pc.CloseFound? || pc.CloseLocked? then pc.agent.key else pc.key
  }

  function Debts(pcs: map<Tid, Pc>): map<Tid, RtId> {
    map t | t in pcs && OwesRelease(pcs[t]) :: RuntimeOf(pcs[t])
  }

  function Memberships(registered: map<string, Agent>): map<string, RtId> {
    map n | n in registered :: registered[n].rt
  }

  function Counters(heap: seq<Runtime>): seq<int> {
    seq(|heap|, i requires 0 <= i < |heap| => heap[i].references)
  }

  function HeapKeys(heap: seq<Runtime>): seq<string> {
    seq(|heap|, i requires 0 <= i < |heap| => heap[i].key)
  }

  function Book(s: State): L.Ledger {
    L.Ledger(Debts(s.pcs), Memberships(s.registered), s.runtimes, Counters(s.heap), HeapKeys(s.heap))
  }

  // ---- every step is a ledger step ----

  lemma DebtsAfter(pcs: map<Tid, Pc>, t: Tid, pc: Pc)
    requires t in pcs
    ensures Debts(pcs[t := pc]) == if OwesRelease(pc) then Debts(pcs)[t := RuntimeOf(pc)] else Debts(pcs) - {t}
  {
    var after := Debts(pcs[t := pc]);
    var expected := if OwesRelease(pc) then Debts(pcs)[t := RuntimeOf(pc)] else Debts(pcs) - {t};
    assert after.Keys == expected.Keys;
  }

  /** The thread keeps the debt it had, if any. */
  predicate SameDebt(pc: Pc, pc': Pc) {
    && OwesRelease(pc) == OwesRelease(pc')
    && (OwesRelease(pc) ==> RuntimeOf(pc') == RuntimeOf(pc) && KeyOf(pc') == KeyOf(pc))
  }

  /** A step that moves one thread and at most one runtime, and touches no reference. */
  ghost predicate Quiet(s: State, t: Tid, s': State) {
    && t in s.pcs && t in s'.pcs
    && s'.pcs == s.pcs[t := s'.pcs[t]]
    && SameDebt(s.pcs[t], s'.pcs[t])
    && s'.runtimes == s.runtimes && s'.registered == s.registered
    && |s'.heap| == |s.heap|
    && forall i :: 0 <= i < |s.heap| ==> s'.heap[i].references == s.heap[i].references && s'.heap[i].key == s.heap[i].key
  }

  lemma QuietBook(s: State, t: Tid, s': State)
    requires Quiet(s, t, s')
    ensures Book(s') == Book(s)
  {
    DebtsAfter(s.pcs, t, s'.pcs[t]);
    assert Counters(s'.heap) == Counters(s.heap);
    assert HeapKeys(s'.heap) == HeapKeys(s.heap);
    assert Debts(s'.pcs) == Debts(s.pcs);
  }

  /** What an inner event may not touch. */
  lemma InnerFrame(pc: Pc, r: Runtime, ev: Event, shut: set<Driver>, spare: Driver)
    requires Inner(ev) && InnerReady(pc, r, ev)
    ensures var (pc', r') := InnerStep(pc, r, ev, shut, spare);
            && SameDebt(pc, pc')
            && r'.references == r.references && r'.key == r.key
            && (r'.closed ==> r.closed || pc.ClosingRuntime?)
            && (HasRuntime(pc') ==> HasRuntime(pc) && RuntimeOf(pc') == RuntimeOf(pc))
            && !pc'.OpenChecked? && !pc'.ClosingRuntime? && (pc'.Testing? ==> pc.Testing?)
  {
  }

  // ---- the invariant ----

  predicate Current(s: State, rt: RtId) {
    rt < |s.heap| && s.heap[rt].key in s.runtimes && s.runtimes[s.heap[rt].key] == rt
  }

  predicate PcKnown(s: State, pc: Pc) {
    && (pc.OpenChecked? ==> pc.key != "")
    && (HasAgent(pc) || pc.OpenHolding? || pc.OpenValidated? || pc.Releasing? ==> RuntimeOf(pc) < |s.heap|)
    && (OwesRelease(pc) ==> KeyOf(pc) != "" && KeyOf(pc) == s.heap[RuntimeOf(pc)].key)
    && (pc.ClosingRuntime? || pc.Testing? ==> pc.rt < |s.heap| && !Current(s, pc.rt))
  }

  /** Threads and registered sessions refer to runtimes that exist, under the right key,
      and a closed runtime is out of the map. */
  ghost predicate Known(s: State) {
    && (forall t :: t in s.pcs ==> PcKnown(s, s.pcs[t]))
    && (forall n :: n in s.registered ==>
          var a := s.registered[n]; a.name == n && a.rt < |s.heap| && a.key != "" && a.key == s.heap[a.rt].key)
    && (forall i :: 0 <= i < |s.heap| && s.heap[i].closed ==> !Current(s, i))
    && (forall k :: k in s.runtimes ==> s.runtimes[k] < |s.heap| && s.heap[s.runtimes[k]].key == k)
  }

  ghost predicate References(s: State) {
    Known(s) && L.Balanced(Book(s))
  }

  lemma QuietKeeps(s: State, t: Tid, s': State)
    requires References(s) && Quiet(s, t, s')
    requires PcKnown(s', s'.pcs[t])
    requires forall i :: 0 <= i < |s.heap| && s'.heap[i].closed ==> s.heap[i].closed || !Current(s, i)
    ensures References(s')
  {
    QuietBook(s, t, s');
    forall u | u in s'.pcs
      ensures PcKnown(s', s'.pcs[u])
    {
      if u != t {
        assert PcKnown(s, s.pcs[u]);
      }
    }
  }

  lemma LocalFrame(s: State, pc: Pc, ev: Event)
    requires Local(ev) && LocalReady(s.registered, pc, ev) && PcKnown(s, pc)
    requires forall n :: n in s.registered ==> s.registered[n].rt < |s.heap|
    ensures SameDebt(pc, LocalStep(s.registered, pc, ev))
    ensures PcKnown(s, LocalStep(s.registered, pc, ev))
  {
  }

  lemma LocalKeeps(s: State, t: Tid, ev: Event)
    requires References(s) && Enabled(s, t, ev) && Local(ev)
    ensures References(Go(s, t, LocalStep(s.registered, s.pcs[t], ev)))
  {
    assert PcKnown(s, s.pcs[t]);
    LocalFrame(s, s.pcs[t], ev);
    QuietKeeps(s, t, Go(s, t, LocalStep(s.registered, s.pcs[t], ev)));
  }

  lemma CloseOneKeeps(s: State, t: Tid)
    requires References(s) && t in s.pcs && ClosesDrivers(s.pcs[t])
    ensures References(CloseOne(s, t))
  {
    assert PcKnown(s, s.pcs[t]);
    QuietKeeps(s, t, CloseOne(s, t));
  }

  /** One thread and one runtime change, neither in what the ledger sees. */
  lemma ReplaceKeeps(s: State, t: Tid, pc: Pc, rt: RtId, r: Runtime, created: nat)
    requires References(s) && t in s.pcs && rt < |s.heap|
    requires SameDebt(s.pcs[t], pc) && PcKnown(s, pc)
    requires r.references == s.heap[rt].references && r.key == s.heap[rt].key
    requires r.closed ==> s.heap[rt].closed || !Current(s, rt)
    ensures References(Go(Put(s, rt, r), t, pc).(created := created))
  {
    QuietKeeps(s, t, Go(Put(s, rt, r), t, pc).(created := created));
  }

  lemma InnerPc(s: State, t: Tid, ev: Event, pc: Pc, r: Runtime)
    requires InnerEnabled(s, t, ev) && PcKnown(s, s.pcs[t])
    requires (pc, r) == InnerStep(s.pcs[t], s.heap[RuntimeOf(s.pcs[t])], ev, s.shut, s.created)
    ensures var rt := RuntimeOf(s.pcs[t]);
            && SameDebt(s.pcs[t], pc) && PcKnown(s, pc)
            && r.references == s.heap[rt].references && r.key == s.heap[rt].key
            && (r.closed ==> s.heap[rt].closed || !Current(s, rt))
  {
    InnerFrame(s.pcs[t], s.heap[RuntimeOf(s.pcs[t])], ev, s.shut, s.created);
  }

  lemma InnerKeeps(s: State, t: Tid, ev: Event)
    requires References(s) && InnerEnabled(s, t, ev)
    ensures References(InnerNext(s, t, ev))
  {
    var rt := RuntimeOf(s.pcs[t]);
    var (pc, r) := InnerStep(s.pcs[t], s.heap[rt], ev, s.shut, s.created);
    assert PcKnown(s, s.pcs[t]);
    InnerPc(s, t, ev, pc, r);
    ReplaceKeeps(s, t, pc, rt, r, InnerNext(s, t, ev).created);
  }

  /** A thread other than `t` is known after a step that only adds runtimes or map entries
      for new ones, or takes entries out. */
  lemma OthersKnown(s: State, t: Tid, s': State)
    requires Known(s) && t in s.pcs && s'.pcs.Keys == s.pcs.Keys
    requires forall u :: u in s.pcs && u != t ==> s'.pcs[u] == s.pcs[u]
    requires |s.heap| <= |s'.heap|
    requires forall i :: 0 <= i < |s.heap| ==> s'.heap[i].key == s.heap[i].key && (Current(s', i) ==> Current(s, i))
    ensures forall u :: u in s'.pcs && u != t ==> PcKnown(s', s'.pcs[u])
  {
    forall u | u in s'.pcs && u != t
      ensures PcKnown(s', s'.pcs[u])
    {
      assert PcKnown(s, s.pcs[u]);
    }
  }

  /** A step that opens and closes no old runtime and leaves the map well formed. */
  lemma KnownAfter(s: State, t: Tid, s': State)
    requires Known(s) && t in s.pcs && s'.pcs.Keys == s.pcs.Keys && s'.registered == s.registered
    requires forall u :: u in s.pcs && u != t ==> s'.pcs[u] == s.pcs[u]
    requires |s.heap| <= |s'.heap| && PcKnown(s', s'.pcs[t])
    requires forall i :: 0 <= i < |s.heap| ==>
      s'.heap[i].key == s.heap[i].key && s'.heap[i].closed == s.heap[i].closed && (Current(s', i) ==> Current(s, i))
    requires forall i :: |s.heap| <= i < |s'.heap| ==> !s'.heap[i].closed
    requires forall k :: k in s'.runtimes ==> s'.runtimes[k] < |s'.heap| && s'.heap[s'.runtimes[k]].key == k
    ensures Known(s')
  {
    OthersKnown(s, t, s');
  }

  lemma TestCreateBook(s: State, t: Tid, r: Runtime)
    requires t in s.pcs && s.pcs[t].Idle? && r.references == 0
    ensures Book(StartTest(s, t, r)) == L.AddFresh(Book(s), r.key)
  {
    DebtsAfter(s.pcs, t, Testing(|s.heap|));
    assert Counters(s.heap + [r]) == Counters(s.heap) + [0];
    assert HeapKeys(s.heap + [r]) == HeapKeys(s.heap) + [r.key];
  }

  lemma TestCreateKnown(s: State, t: Tid, r: Runtime)
    requires Known(s) && t in s.pcs && s.pcs[t].Idle? && !r.closed
    ensures Known(StartTest(s, t, r))
  {
    OthersKnown(s, t, StartTest(s, t, r));
  }

  lemma TestCreateKeeps(s: State, t: Tid, r: Runtime)
    requires References(s) && t in s.pcs && s.pcs[t].Idle? && r.references == 0 && !r.closed
    ensures References(StartTest(s, t, r))
  {
    TestCreateBook(s, t, r);
    TestCreateKnown(s, t, r);
    L.FreshKeeps(Book(s), r.key);
  }

  lemma AcquireBook(s: State, t: Tid, name: string, key: string, pool: Option<int>, metadata: Option<int>)
    requires t in s.pcs && L.Shaped(Book(s))
    ensures Book(Acquire(s, t, name, key, pool, metadata)) == L.Owe(Book(s), t, key)
  {
    var s' := Acquire(s, t, name, key, pool, metadata);
    DebtsAfter(s.pcs, t, s'.pcs[t]);
    assert Counters(s'.heap) == L.Owe(Book(s), t, key).refs;
    assert HeapKeys(s'.heap) == L.Owe(Book(s), t, key).keys;
  }

  lemma AcquireKnown(s: State, t: Tid, name: string, key: string, pool: Option<int>, metadata: Option<int>)
    requires Known(s) && t in s.pcs && key != ""
    requires key in s.runtimes ==> !s.heap[s.runtimes[key]].closed
    ensures Known(Acquire(s, t, name, key, pool, metadata))
  {
    KnownAfter(s, t, Acquire(s, t, name, key, pool, metadata));
  }

  lemma AcquireKeeps(s: State, t: Tid, pool: Option<int>, metadata: Option<int>)
    requires References(s) && t in s.pcs && s.pcs[t].OpenChecked?
    ensures References(Acquire(s, t, s.pcs[t].name, s.pcs[t].key, pool, metadata))
  {
    var pc := s.pcs[t];
    assert PcKnown(s, pc);
    if pc.key in s.runtimes {
      assert Current(s, s.runtimes[pc.key]);
    }
    AcquireBook(s, t, pc.name, pc.key, pool, metadata);
    AcquireKnown(s, t, pc.name, pc.key, pool, metadata);
    L.OweKeeps(Book(s), t, pc.key);
  }

  lemma RegisterBook(s: State, t: Tid)
    requires t in s.pcs && s.pcs[t].OpenValidated? && s.pcs[t].name !in s.registered
    ensures Book(Register(s, t)) == L.Enrol(Book(s), t, s.pcs[t].name)
  {
    var pc, s' := s.pcs[t], Register(s, t);
    DebtsAfter(s.pcs, t, Idle);
    assert Memberships(s'.registered) == Memberships(s.registered)[pc.name := pc.rt];
  }

  lemma RegisterKnown(s: State, t: Tid)
    requires Known(s) && t in s.pcs && s.pcs[t].OpenValidated? && s.pcs[t].name !in s.registered
    ensures Known(Register(s, t))
  {
    assert PcKnown(s, s.pcs[t]);
    OthersKnown(s, t, Register(s, t));
  }

  lemma RegisterKeeps(s: State, t: Tid)
    requires References(s) && t in s.pcs && s.pcs[t].OpenValidated?
    ensures References(Register(s, t))
  {
    if s.pcs[t].name in s.registered {
      assert PcKnown(s, s.pcs[t]);
      QuietKeeps(s, t, Register(s, t));
    } else {
      RegisterBook(s, t);
      RegisterKnown(s, t);
      L.EnrolKeeps(Book(s), t, s.pcs[t].name);
    }
  }

  lemma DeregisterBook(s: State, t: Tid, name: string)
    requires t in s.pcs && s.pcs[t].Idle? && name in s.registered
    ensures Book(Deregister(s, t, name)) == L.Withdraw(Book(s), t, name)
  {
    DebtsAfter(s.pcs, t, CloseFound(s.registered[name]));
    assert Memberships(s.registered - {name}) == Memberships(s.registered) - {name};
  }

  lemma DeregisterKnown(s: State, t: Tid, name: string)
    requires Known(s) && t in s.pcs && name in s.registered
    ensures Known(Deregister(s, t, name))
  {
    OthersKnown(s, t, Deregister(s, t, name));
  }

  lemma DeregisterKeeps(s: State, t: Tid, name: string)
    requires References(s) && t in s.pcs && s.pcs[t].Idle?
    ensures References(Deregister(s, t, name))
  {
    if name in s.registered {
      DeregisterBook(s, t, name);
      DeregisterKnown(s, t, name);
      L.WithdrawKeeps(Book(s), t, name);
    }
  }

  lemma ReleaseBook(s: State, t: Tid)
    requires t in s.pcs && s.pcs[t].Releasing? && L.Shaped(Book(s))
    requires s.pcs[t].key != "" && Current(s, s.pcs[t].rt) && s.heap[s.pcs[t].rt].key == s.pcs[t].key
    requires s.heap[s.pcs[t].rt].references >= 1
    ensures Book(ReleaseRuntime(s, t, s.pcs[t].key)) == L.Settle(Book(s), t)
  {
    var s' := ReleaseRuntime(s, t, s.pcs[t].key);
    DebtsAfter(s.pcs, t, s'.pcs[t]);
    assert Counters(s'.heap) == L.Settle(Book(s), t).refs;
    assert HeapKeys(s'.heap) == HeapKeys(s.heap);
  }

  /** releaseRuntime finds the very runtime its caller acquired, never a missing one or a
      newer one under the same key, and its counter is positive. */
  lemma ReleaseHitsItsRuntime(s: State, t: Tid)
    requires References(s) && t in s.pcs && s.pcs[t].Releasing?
    ensures Current(s, s.pcs[t].rt) && s.pcs[t].key == s.heap[s.pcs[t].rt].key != ""
    ensures s.heap[s.pcs[t].rt].references == L.Owed(Book(s), s.pcs[t].rt) >= 1
  {
    assert PcKnown(s, s.pcs[t]);
    LedgerDebt(Book(s), t);
    DebtIsCurrent(s, t);
    CurrentIsCounted(Book(s), s.pcs[t].rt);
  }

  lemma DebtIsCurrent(s: State, t: Tid)
    requires t in s.pcs && s.pcs[t].Releasing? && PcKnown(s, s.pcs[t]) && L.Current(Book(s), Debts(s.pcs)[t])
    ensures Current(s, s.pcs[t].rt) && s.pcs[t].key == s.heap[s.pcs[t].rt].key != ""
    ensures L.Current(Book(s), s.pcs[t].rt)
  {
    assert HeapKeys(s.heap)[s.pcs[t].rt] == s.heap[s.pcs[t].rt].key;
  }

  lemma LedgerDebt(b: L.Ledger, t: Tid)
    requires L.Balanced(b) && t in b.debts
    ensures L.Current(b, b.debts[t])
  {
  }

  lemma CurrentIsCounted(b: L.Ledger, rt: nat)
    requires L.Balanced(b) && L.Current(b, rt)
    ensures rt < |b.refs| && b.refs[rt] == L.Owed(b, rt) >= 1
  {
    assert b.runtimes[b.keys[rt]] == rt;
  }

  lemma ReleaseKnown(s: State, t: Tid)
    requires Known(s) && t in s.pcs && s.pcs[t].Releasing?
    requires Current(s, s.pcs[t].rt) && s.heap[s.pcs[t].rt].key == s.pcs[t].key
    ensures Known(ReleaseRuntime(s, t, s.pcs[t].key))
  {
    var rt, key := s.pcs[t].rt, s.pcs[t].key;
    var r := s.heap[rt];
    var left := if r.references > 0 then r.references - 1 else r.references;
    if key != "" && left == 0 {
      LastReleaseKnown(s, t, rt, r.(references := left), key);
    } else if key != "" {
      KnownAfter(s, t, Go(Put(s, rt, r.(references := left)), t, Idle));
    } else {
      KnownAfter(s, t, Go(s, t, Idle));
    }
  }

  lemma LastReleaseKnown(s: State, t: Tid, rt: RtId, r: Runtime, key: string)
    requires Known(s) && t in s.pcs && Current(s, rt) && s.heap[rt].key == key && r.key == key && r.closed == s.heap[rt].closed
    ensures Known(Go(Put(s, rt, r).(runtimes := s.runtimes - {key}), t, ClosingRuntime(rt)))
  {
    KnownAfter(s, t, Go(Put(s, rt, r).(runtimes := s.runtimes - {key}), t, ClosingRuntime(rt)));
  }

  lemma ReleaseKeeps(s: State, t: Tid)
    requires References(s) && t in s.pcs && s.pcs[t].Releasing?
    ensures References(ReleaseRuntime(s, t, s.pcs[t].key))
  {
    ReleaseHitsItsRuntime(s, t);
    ReleaseBook(s, t);
    ReleaseKnown(s, t);
    L.SettleKeeps(Book(s), t);
  }

  lemma StepKeepsReferences(s: State, t: Tid, ev: Event)
    requires References(s) && Enabled(s, t, ev)
    ensures References(Next(s, t, ev))
  {
    if Local(ev) {
      LocalKeeps(s, t, ev);
    } else if Inner(ev) {
      InnerKeeps(s, t, ev);
    } else {
      match ev
      case OpenAcquire(pool, metadata) => AcquireKeeps(s, t, pool, metadata);
      case OpenRegister => RegisterKeeps(s, t);
      case Release => ReleaseKeeps(s, t);
      case CloseDriver => CloseOneKeeps(s, t);
      case CloseLookup(name) => DeregisterKeeps(s, t, name);
      case TestCreate(key, pool, metadata) => TestCreateKeeps(s, t, Fresh(key, pool, metadata));
    }
  }

  lemma InitReferences(s: State)
    requires Init(s)
    ensures References(s)
  {
    assert Debts(s.pcs) == map[];
  }
}
