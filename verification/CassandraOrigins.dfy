/** Which runtime a driver session comes from, in every interleaving; and from that, exactly when a driver session
    that an active operation obtained is closed under it. */
module CassandraOrigins {
  import opened Common
  import opened CassandraRuntime
  import opened CassandraAgent
  import opened CassandraReferences
  import opened CassandraSafety
  import D = CassandraDrivers

  /** The runtime and the keyspace that a driver session was created for. */
  datatype Birth = Birth(rt: RtId, keyspace: string)

  type Origins = map<Driver, Birth>

  predicate From(born: Origins, d: Driver, rt: RtId) {
    d in born && born[d].rt == rt
  }

  predicate For(born: Origins, d: Driver, rt: RtId, keyspace: string) {
    d in born && born[d] == Birth(rt, keyspace)
  }

  /** The session of a keyspace was created for it, and only sessions without a keyspace are retired. */
  ghost predicate StoreFrom(rt: RtId, r: Runtime, born: Origins) {
    && (forall k :: k in r.sessions ==> For(born, r.sessions[k], rt, k))
    && (forall d :: d in r.retired ==> For(born, d, rt, ""))
  }

  ghost predicate UseFrom(pc: Pc, born: Origins) {
    pc.OpActive? ==> forall d :: d in pc.obtained ==> From(born, d, pc.agent.rt)
  }

  /** What a runtime holds and what its operations obtained was created for it. */
  ghost predicate Bred(s: State, born: Origins) {
    && (forall d :: d in born ==> d < s.created)
    && (forall rt :: 0 <= rt < |s.heap| ==> StoreFrom(rt, s.heap[rt], born))
    && (forall t :: t in s.pcs ==> UseFrom(s.pcs[t], born))
  }

  predicate SameUse(pc: Pc, pc': Pc) {
    pc'.OpActive? ==> pc.OpActive? && pc'.obtained == pc.obtained && pc'.agent == pc.agent
  }

  /** A step that creates no driver session and fills no runtime. */
  lemma StillBred(s: State, t: Tid, s': State, born: Origins)
    requires Bred(s, born) && t in s.pcs && t in s'.pcs && s'.pcs == s.pcs[t := s'.pcs[t]] && SameUse(s.pcs[t], s'.pcs[t])
    requires s'.created == s.created && |s.heap| <= |s'.heap|
    requires forall i :: 0 <= i < |s.heap| ==> s'.heap[i].sessions == s.heap[i].sessions && s'.heap[i].retired == s.heap[i].retired
    requires forall i :: |s.heap| <= i < |s'.heap| ==> s'.heap[i].sessions == map[] && s'.heap[i].retired == []
    ensures Bred(s', born)
  {
    forall i | 0 <= i < |s'.heap|
      ensures StoreFrom(i, s'.heap[i], born)
    {
      assert i < |s.heap| ==> StoreFrom(i, s.heap[i], born);
    }
    forall u | u in s'.pcs
      ensures UseFrom(s'.pcs[u], born)
    {
      assert u in s.pcs && UseFrom(s.pcs[u], born);
    }
  }

  /** The origins after an inner event of a thread that works on `rt`. */
  function BornAfter(born: Origins, r: Runtime, ev: Event, shut: set<Driver>, spare: Driver, rt: RtId): Origins {
    if Made(r, ev, shut, spare) then born[spare := Birth(rt, Trim(ev.keyspace))] else born
  }

  /** An inner event leaves in the runtime, and gives to the operation, only what was created for the runtime. */
  lemma InnerBred(pc: Pc, r: Runtime, ev: Event, shut: set<Driver>, spare: Driver, rt: RtId, born: Origins)
    requires Inner(ev) && InnerReady(pc, r, ev) && HasRuntime(pc) && RuntimeOf(pc) == rt
    requires StoreFrom(rt, r, born) && UseFrom(pc, born) && spare !in born
    ensures var (pc', r') := InnerStep(pc, r, ev, shut, spare);
      var born' := BornAfter(born, r, ev, shut, spare, rt);
      StoreFrom(rt, r', born') && UseFrom(pc', born')
  {
  }

  predicate Extends(born': Origins, born: Origins) {
    forall d :: d in born ==> d in born' && born'[d] == born[d]
  }

  lemma ReplaceBred(s: State, t: Tid, rt: RtId, s': State, born: Origins, born': Origins)
    requires Bred(s, born) && t in s.pcs && t in s'.pcs && s'.pcs == s.pcs[t := s'.pcs[t]] && UseFrom(s'.pcs[t], born')
    requires rt < |s.heap| && |s'.heap| == |s.heap| && StoreFrom(rt, s'.heap[rt], born')
    requires forall i :: 0 <= i < |s.heap| && i != rt ==> s'.heap[i] == s.heap[i]
    requires Extends(born', born)
    requires forall d :: d in born' ==> d < s'.created
    ensures Bred(s', born')
  {
    forall i | 0 <= i < |s'.heap|
      ensures StoreFrom(i, s'.heap[i], born')
    {
      assert StoreFrom(i, s.heap[i], born);
    }
    forall u | u in s'.pcs
      ensures UseFrom(s'.pcs[u], born')
    {
      assert u in s.pcs && UseFrom(s.pcs[u], born);
    }
  }

  lemma PlacedBred(s: State, t: Tid, rt: RtId, pc: Pc, r: Runtime, made: bool, keyspace: string, born: Origins, born': Origins)
    requires Bred(s, born) && t in s.pcs && rt < |s.heap| && StoreFrom(rt, r, born') && UseFrom(pc, born')
    requires born' == if made then born[s.created := Birth(rt, keyspace)] else born
    ensures Bred(Go(Put(s, rt, r), t, pc).(created := if made then s.created + 1 else s.created), born')
  {
    ReplaceBred(s, t, rt, Go(Put(s, rt, r), t, pc).(created := if made then s.created + 1 else s.created), born, born');
  }

  lemma InnerKeepsBred(s: State, t: Tid, ev: Event, born: Origins) returns (born': Origins)
    requires Bred(s, born) && InnerEnabled(s, t, ev)
    ensures Bred(InnerNext(s, t, ev), born') && Extends(born', born)
  {
    var pc := s.pcs[t];
    var rt := RuntimeOf(pc);
    var made := Made(s.heap[rt], ev, s.shut, s.created);
    var (pc', r) := InnerStep(pc, s.heap[rt], ev, s.shut, s.created);
    born' := BornAfter(born, s.heap[rt], ev, s.shut, s.created, rt);
    InnerBred(pc, s.heap[rt], ev, s.shut, s.created, rt, born);
    PlacedBred(s, t, rt, pc', r, made, if ev.Use? then Trim(ev.keyspace) else "", born, born');
  }

  lemma AcquireBred(s: State, t: Tid, pool: Option<int>, limit: Option<int>, born: Origins)
    requires Bred(s, born) && t in s.pcs && s.pcs[t].OpenChecked?
    requires s.pcs[t].key in s.runtimes ==> s.runtimes[s.pcs[t].key] < |s.heap|
    ensures Bred(Acquire(s, t, s.pcs[t].name, s.pcs[t].key, pool, limit), born)
  {
    StillBred(s, t, Acquire(s, t, s.pcs[t].name, s.pcs[t].key, pool, limit), born);
  }

  lemma OuterKeepsBred(s: State, t: Tid, ev: Event, born: Origins)
    requires Bred(s, born) && Enabled(s, t, ev) && !Inner(ev) && !Local(ev)
    ensures Bred(Next(s, t, ev), born)
  {
    match ev
    case OpenAcquire(pool, limit) => AcquireBred(s, t, pool, limit, born);
    case OpenRegister => StillBred(s, t, Register(s, t), born);
    case Release => StillBred(s, t, ReleaseRuntime(s, t, s.pcs[t].key), born);
    case CloseDriver => StillBred(s, t, CloseOne(s, t), born);
    case CloseLookup(name) => StillBred(s, t, Deregister(s, t, name), born);
    case TestCreate(key, pool, limit) => StillBred(s, t, StartTest(s, t, Fresh(key, pool, limit)), born);
  }

  lemma StepKeepsBred(s: State, t: Tid, ev: Event, born: Origins) returns (born': Origins)
    requires Bred(s, born) && Enabled(s, t, ev)
    ensures Bred(Next(s, t, ev), born') && Extends(born', born)
  {
    born' := born;
    if Local(ev) {
      D.LocalCargo(s.registered, s.pcs[t], ev);
      StillBred(s, t, Next(s, t, ev), born);
    } else if Inner(ev) {
      born' := InnerKeepsBred(s, t, ev, born);
    } else {
      OuterKeepsBred(s, t, ev, born);
    }
  }

  lemma {:induction false} RunKeepsBred(s: State, moves: seq<Move>, born: Origins) returns (born': Origins)
    requires Bred(s, born) && Schedule(s, moves)
    ensures Bred(Run(s, moves), born') && Extends(born', born)
    decreases |moves|
  {
    born' := born;
    if moves != [] {
      var next := StepKeepsBred(s, moves[0].t, moves[0].ev, born);
      born' := RunKeepsBred(Next(s, moves[0].t, moves[0].ev), moves[1..], next);
    }
  }

  /** In a reachable state every driver session has one runtime that it was created for. */
  lemma ReachableBred(s: State) returns (born: Origins)
    requires Reachable(s)
    ensures Bred(s, born)
  {
    var start, moves :| Init(start) && Schedule(start, moves) && Run(start, moves) == s;
    born := RunKeepsBred(start, moves, map[]);
  }

  /** The driver session is closed, or a thread has taken it out to close it. */
  ghost predicate LostToClose(s: State, d: Driver) {
    d in s.shut || exists u :: u in s.pcs && d in Hand(s.pcs[u])
  }

  /** Exactly when the protection of an active operation fails: a driver session it obtained is closed, or about to
      be, if and only if the operation's runtime is closed; and that never happens to an operation that locked a
      registered session. */
  lemma ClosedInUseIff(s: State, t: Tid, d: Driver)
    requires Reachable(s) && t in s.pcs && s.pcs[t].OpActive? && d in s.pcs[t].obtained
    ensures s.pcs[t].agent.rt < |s.heap|
    ensures LostToClose(s, d) <==> s.heap[s.pcs[t].agent.rt].closed
    ensures s.pcs[t].guarded ==> !LostToClose(s, d)
  {
    InUseIsNeverClosed(s, t, d);
    if s.heap[s.pcs[t].agent.rt].closed {
      ClosedRuntimeLosesAll(s, t, d);
    }
  }

  lemma ClosedRuntimeLosesAll(s: State, t: Tid, d: Driver)
    requires Reachable(s) && t in s.pcs && s.pcs[t].OpActive? && d in s.pcs[t].obtained
    requires s.pcs[t].agent.rt < |s.heap| && s.heap[s.pcs[t].agent.rt].closed
    ensures LostToClose(s, d)
  {
    var rt := s.pcs[t].agent.rt;
    var born := ReachableBred(s);
    assert UseFrom(s.pcs[t], born) && From(born, d, rt);
    ReachableInv(s);
    var home: D.Homes :| D.Housed(s, home);
    assert d in home && D.Located(s, d, home[d]);
    if home[d].InLive? || home[d].InRetired? {
      HomeIsOrigin(s, d, home, born);
    }
  }

  /** A driver session in a live map or a retired list is in the runtime it comes from, which is open. */
  lemma HomeIsOrigin(s: State, d: Driver, home: D.Homes, born: Origins)
    requires D.Housed(s, home) && Bred(s, born) && d in home && (home[d].InLive? || home[d].InRetired?)
    ensures From(born, d, home[d].rt) && home[d].rt < |s.heap| && !s.heap[home[d].rt].closed
  {
    var rt := home[d].rt;
    assert D.Located(s, d, home[d]);
    assert D.Stored(rt, s.heap[rt], home) && StoreFrom(rt, s.heap[rt], born);
  }
}
