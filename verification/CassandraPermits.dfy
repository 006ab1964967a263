/** What every interleaving keeps about the two permit channels and activeOperations. */
module CassandraPermits {
  import opened Common
  import opened CassandraRuntime
  import opened CassandraAgent
  import L = CassandraLedger

  datatype Kind = General | Metadata | Active

  /** The runtime of which a thread occupies one unit of the given kind. */
  function Held(pc: Pc, kind: Kind): Option<RtId> {
    match kind
    case General => if pc.OpPermitted? || pc.OpActive? || pc.OpReleased? then Some(pc.agent.rt) else None
    case Metadata =>
      if pc.OpMetadata? || ((pc.OpPermitted? || pc.OpActive? || pc.OpReleased? || pc.OpReturned?) && pc.metadata)
      then Some(pc.agent.rt) else None
    case Active => if pc.OpActive? then Some(pc.agent.rt) else None
  }

  function Level(r: Runtime, kind: Kind): int {
    match kind
    case General => r.permits
    case Metadata => r.metadataPermits
    case Active => r.active
  }

  function Holdings(pcs: map<Tid, Pc>, kind: Kind): map<Tid, RtId> {
    map t | t in pcs && Held(pcs[t], kind).Some? :: Held(pcs[t], kind).value
  }

  ghost function Count(pcs: map<Tid, Pc>, kind: Kind, rt: RtId): nat {
    L.Tally(Holdings(pcs, kind), rt)
  }

  lemma CountAfter(pcs: map<Tid, Pc>, t: Tid, pc: Pc, kind: Kind, rt: RtId)
    requires t in pcs
    ensures Count(pcs[t := pc], kind, rt) ==
            Count(pcs, kind, rt) + L.One(Held(pc, kind) == Some(rt)) - L.One(Held(pcs[t], kind) == Some(rt))
  {
    var before, after := Holdings(pcs, kind), Holdings(pcs[t := pc], kind);
    if Held(pc, kind).Some? {
      assert after == before[t := Held(pc, kind).value];
      L.TallyPut(before, t, Held(pc, kind).value, rt);
    } else {
      assert after == before - {t};
      L.TallyDrop(before, t, rt);
    }
  }

  ghost predicate Counted(s: State, rt: RtId)
    requires rt < |s.heap|
  {
    forall kind :: Level(s.heap[rt], kind) == Count(s.pcs, kind, rt)
  }

  predicate Bounded(r: Runtime) {
    r.permits <= r.poolSize && r.metadataPermits <= r.metadataLimit <= r.poolSize
  }

  ghost predicate Permits(s: State) {
    && (forall rt :: 0 <= rt < |s.heap| ==> Counted(s, rt) && Bounded(s.heap[rt]))
    && (forall t :: t in s.pcs && HasAgent(s.pcs[t]) ==> s.pcs[t].agent.rt < |s.heap|)
    && (forall n :: n in s.registered ==> s.registered[n].rt < |s.heap|)
  }

  // ---- preservation ----

  /** The thread occupies what it did before. */
  predicate SameHoldings(pc: Pc, pc': Pc) {
    forall kind :: Held(pc', kind) == Held(pc, kind)
  }

  lemma SameCounts(pcs: map<Tid, Pc>, t: Tid, pc: Pc)
    requires t in pcs && SameHoldings(pcs[t], pc)
    ensures forall kind, rt :: Count(pcs[t := pc], kind, rt) == Count(pcs, kind, rt)
  {
    forall kind, rt
      ensures Count(pcs[t := pc], kind, rt) == Count(pcs, kind, rt)
    {
      CountAfter(pcs, t, pc, kind, rt);
    }
  }

  /** A runtime nobody works on yet has all its permits free. */
  lemma FreshCounted(s: State, rt: RtId)
    requires Permits(s) && rt >= |s.heap|
    ensures forall kind :: Count(s.pcs, kind, rt) == 0
  {
    forall kind
      ensures Count(s.pcs, kind, rt) == 0
    {
      L.TallyZero(Holdings(s.pcs, kind), rt);
    }
  }

  predicate SameLevels(r: Runtime, r': Runtime) {
    r'.permits == r.permits && r'.metadataPermits == r.metadataPermits && r'.active == r.active &&
    r'.poolSize == r.poolSize && r'.metadataLimit == r.metadataLimit
  }

  /** Steps that leave permits and active operations of every runtime alone. */
  lemma IdleStepKeeps(s: State, t: Tid, s': State)
    requires Permits(s) && t in s.pcs && t in s'.pcs
    requires s'.pcs == s.pcs[t := s'.pcs[t]] && SameHoldings(s.pcs[t], s'.pcs[t])
    requires |s.heap| <= |s'.heap| <= |s.heap| + 1
    requires forall i :: 0 <= i < |s.heap| ==> SameLevels(s.heap[i], s'.heap[i])
    requires |s'.heap| > |s.heap| ==>
      s'.heap[|s.heap|].permits == s'.heap[|s.heap|].metadataPermits == s'.heap[|s.heap|].active == 0 && Bounded(s'.heap[|s.heap|])
    requires HasAgent(s'.pcs[t]) ==> s'.pcs[t].agent.rt < |s.heap|
    requires forall n :: n in s'.registered ==> s'.registered[n].rt < |s.heap|
    ensures Permits(s')
  {
    SameCounts(s.pcs, t, s'.pcs[t]);
    FreshCounted(s, |s.heap|);
    forall rt | 0 <= rt < |s'.heap|
      ensures Counted(s', rt) && Bounded(s'.heap[rt])
    {
      if rt < |s.heap| {
        assert Counted(s, rt) && Bounded(s.heap[rt]);
        assert forall kind :: Level(s'.heap[rt], kind) == Level(s.heap[rt], kind);
      } else {
        assert forall kind :: Level(s'.heap[rt], kind) == 0;
      }
    }
  }

  /** An inner event changes a level by exactly what its thread takes or gives back. */
  lemma InnerLevels(pc: Pc, r: Runtime, ev: Event, shut: set<Driver>, spare: Driver, kind: Kind)
    requires Inner(ev) && InnerReady(pc, r, ev) && HasRuntime(pc)
    ensures var (pc', r') := InnerStep(pc, r, ev, shut, spare);
            && Level(r', kind) == Level(r, kind) + L.One(Held(pc', kind).Some?) - L.One(Held(pc, kind).Some?)
            && (Held(pc', kind).Some? ==> Held(pc', kind).value == RuntimeOf(pc))
            && (Held(pc, kind).Some? ==> Held(pc, kind).value == RuntimeOf(pc))
  {
  }

  lemma InnerBounded(pc: Pc, r: Runtime, ev: Event, shut: set<Driver>, spare: Driver)
    requires Inner(ev) && InnerReady(pc, r, ev) && HasRuntime(pc) && Bounded(r)
    ensures var (pc', r') := InnerStep(pc, r, ev, shut, spare);
            Bounded(r') && (HasAgent(pc') ==> HasAgent(pc) && pc'.agent == pc.agent)
  {
  }

  lemma ReplaceKeeps(s: State, t: Tid, pc: Pc, rt: RtId, r: Runtime, s': State)
    requires Permits(s) && t in s.pcs && rt < |s.heap|
    requires s'.pcs == s.pcs[t := pc] && s'.heap == s.heap[rt := r] && s'.registered == s.registered
    requires Bounded(r) && (HasAgent(pc) ==> pc.agent.rt < |s.heap|)
    requires forall kind ::
      && Level(r, kind) == Level(s.heap[rt], kind) + L.One(Held(pc, kind).Some?) - L.One(Held(s.pcs[t], kind).Some?)
      && (Held(pc, kind).Some? ==> Held(pc, kind).value == rt)
      && (Held(s.pcs[t], kind).Some? ==> Held(s.pcs[t], kind).value == rt)
    ensures Permits(s')
  {
    forall i | 0 <= i < |s'.heap|
      ensures Counted(s', i) && Bounded(s'.heap[i])
    {
      assert Counted(s, i) && Bounded(s.heap[i]);
      forall kind
        ensures Level(s'.heap[i], kind) == Count(s'.pcs, kind, i)
      {
        CountAfter(s.pcs, t, pc, kind, i);
      }
    }
  }

  lemma InnerKeeps(s: State, t: Tid, ev: Event)
    requires Permits(s) && InnerEnabled(s, t, ev)
    ensures Permits(InnerNext(s, t, ev))
  {
    var pc := s.pcs[t];
    var rt := RuntimeOf(pc);
    var (pc', r) := InnerStep(pc, s.heap[rt], ev, s.shut, s.created);
    forall kind {
      InnerLevels(pc, s.heap[rt], ev, s.shut, s.created, kind);
    }
    InnerBounded(pc, s.heap[rt], ev, s.shut, s.created);
    ReplaceKeeps(s, t, pc', rt, r, InnerNext(s, t, ev));
  }

  lemma LocalHoldings(registered: map<string, Agent>, pc: Pc, ev: Event)
    requires Local(ev) && LocalReady(registered, pc, ev)
    ensures SameHoldings(pc, LocalStep(registered, pc, ev))
    ensures HasAgent(LocalStep(registered, pc, ev)) ==>
              || (HasAgent(pc) && LocalStep(registered, pc, ev).agent == pc.agent)
              || exists n :: n in registered && LocalStep(registered, pc, ev).agent == registered[n]
  {
  }

  lemma StepKeepsPermits(s: State, t: Tid, ev: Event)
    requires Permits(s) && Enabled(s, t, ev)
    ensures Permits(Next(s, t, ev))
  {
    if Inner(ev) {
      InnerKeeps(s, t, ev);
    } else if Local(ev) {
      LocalHoldings(s.registered, s.pcs[t], ev);
      IdleStepKeeps(s, t, Next(s, t, ev));
    } else {
      OuterKeeps(s, t, ev);
    }
  }

  lemma OuterKeeps(s: State, t: Tid, ev: Event)
    requires Permits(s) && Enabled(s, t, ev) && !Inner(ev) && !Local(ev)
    ensures Permits(Next(s, t, ev))
  {
    match ev
    case OpenAcquire(pool, metadata) => AcquireKeeps(s, t, pool, metadata);
    case OpenRegister => IdleStepKeeps(s, t, Register(s, t));
    case Release => ReleaseKeeps(s, t);
    case CloseDriver => IdleStepKeeps(s, t, CloseOne(s, t));
    case CloseLookup(name) => IdleStepKeeps(s, t, Deregister(s, t, name));
    case TestCreate(key, pool, metadata) => TestKeeps(s, t, Fresh(key, pool, metadata));
  }

  lemma TestKeeps(s: State, t: Tid, r: Runtime)
    requires Permits(s) && t in s.pcs && s.pcs[t].Idle? && r.permits == r.metadataPermits == r.active == 0 && Bounded(r)
    ensures Permits(StartTest(s, t, r))
  {
    IdleStepKeeps(s, t, StartTest(s, t, r));
  }

  lemma AcquireKeeps(s: State, t: Tid, pool: Option<int>, metadata: Option<int>)
    requires Permits(s) && t in s.pcs && s.pcs[t].OpenChecked?
    requires s.pcs[t].key in s.runtimes ==> s.runtimes[s.pcs[t].key] < |s.heap|
    ensures Permits(Acquire(s, t, s.pcs[t].name, s.pcs[t].key, pool, metadata))
  {
    IdleStepKeeps(s, t, Acquire(s, t, s.pcs[t].name, s.pcs[t].key, pool, metadata));
  }

  lemma ReleaseKeeps(s: State, t: Tid)
    requires Permits(s) && t in s.pcs && s.pcs[t].Releasing?
    requires s.pcs[t].key in s.runtimes ==> s.runtimes[s.pcs[t].key] < |s.heap|
    ensures Permits(ReleaseRuntime(s, t, s.pcs[t].key))
  {
    IdleStepKeeps(s, t, ReleaseRuntime(s, t, s.pcs[t].key));
  }

  lemma InitPermits(s: State)
    requires Init(s)
    ensures Permits(s)
  {
  }

  // ---- what the counts mean ----

  /** Operations holding a general permit and the metadata permit, both for `rt`. */
  function MetadataInPool(pcs: map<Tid, Pc>): map<Tid, RtId> {
    map t | t in pcs && Held(pcs[t], General).Some? && Held(pcs[t], Metadata).Some? :: pcs[t].agent.rt
  }

  /** activeOperations counts operations, never exceeds the permits held, and those never
      exceed the pool; metadata operations inside the pool never exceed the metadata
      limit, so poolSize - metadataLimit permits stay open to other work. */
  lemma PermitBounds(s: State, rt: RtId)
    requires Permits(s) && rt < |s.heap|
    ensures 0 <= s.heap[rt].active == Count(s.pcs, Active, rt) <= s.heap[rt].permits == Count(s.pcs, General, rt) <= s.heap[rt].poolSize
    ensures L.Tally(MetadataInPool(s.pcs), rt) <= s.heap[rt].metadataPermits == Count(s.pcs, Metadata, rt) <= s.heap[rt].metadataLimit
  {
    assert Counted(s, rt) && Bounded(s.heap[rt]);
    assert Level(s.heap[rt], Active) == s.heap[rt].active && Level(s.heap[rt], General) == s.heap[rt].permits;
    assert Level(s.heap[rt], Metadata) == s.heap[rt].metadataPermits;
    L.TallySubset(Holdings(s.pcs, Active), Holdings(s.pcs, General), rt);
    L.TallySubset(MetadataInPool(s.pcs), Holdings(s.pcs, Metadata), rt);
  }

  /** When no request is running, every permit is back: nothing leaks, whatever timed out. */
  lemma QuiescentPermits(s: State, rt: RtId)
    requires Permits(s) && rt < |s.heap| && forall t :: t in s.pcs ==> s.pcs[t] == Idle
    ensures s.heap[rt].permits == s.heap[rt].metadataPermits == s.heap[rt].active == 0
  {
    assert Counted(s, rt);
    forall kind
      ensures Level(s.heap[rt], kind) == 0
    {
      L.TallyZero(Holdings(s.pcs, kind), rt);
    }
    assert Level(s.heap[rt], General) == Level(s.heap[rt], Metadata) == Level(s.heap[rt], Active) == 0;
  }
}
