/** The Cassandra agent as a state machine over all interleavings of its request
    goroutines (agents/drivers/cassandra-go/main.go and runtime.go).

    Every block the source runs under one mutex, every channel operation and every
    driver-session Close is one step.  `session.mu` is held by a thread whose program
    counter says so; a step that locks it is enabled when no thread holds it. */
module CassandraAgent {
  import opened Common
  import opened CassandraRuntime

  type Tid = nat
  type RtId = nat

  const MAX_AGENT_SESSIONS := 256

  /** An agentSession object; `serial` tells apart two sessions opened under one name. */
  datatype Agent = Agent(serial: nat, name: string, key: string, rt: RtId)

  datatype Pc =
    | Idle
      // openSession
    | OpenChecked(name: string, key: string)
    | OpenHolding(name: string, key: string, rt: RtId)      // past acquireRuntime
    | OpenValidated(name: string, key: string, rt: RtId)
      // releaseRuntime and connectionRuntime.close
    | Releasing(key: string, rt: RtId)                      // still owes one release of rt
    | ClosingRuntime(rt: RtId)
    | Closing(hand: seq<Driver>)
      // closeSession
    | CloseFound(agent: Agent)                              // deregistered, waiting for session.mu
    | CloseLocked(agent: Agent)
      // validate_session
    | ValidateFound(agent: Agent)
    | ValidateLocked(agent: Agent)
      // every other method: guarded records that the session was registered when session.mu was taken
    | OpFound(agent: Agent, metadata: bool)
    | OpLocked(agent: Agent, metadata: bool, guarded: bool)
    | OpMetadata(agent: Agent, guarded: bool)               // metadata permit taken
    | OpPermitted(agent: Agent, metadata: bool, guarded: bool)
    | OpActive(agent: Agent, metadata: bool, guarded: bool, obtained: set<Driver>, hand: seq<Driver>)
    | OpReleased(agent: Agent, metadata: bool, guarded: bool, hand: seq<Driver>)
    | OpReturned(agent: Agent, metadata: bool, guarded: bool, hand: seq<Driver>)
    | OpClosing(agent: Agent, guarded: bool, hand: seq<Driver>)
      // test_connection, on a runtime of its own
    | Testing(rt: RtId)

  datatype State = State(
    registered: map<string, Agent>,
    runtimes: map<string, RtId>,
    heap: seq<Runtime>,             // every runtime ever created
    pcs: map<Tid, Pc>,
    serials: nat,                   // agent sessions created so far
    created: nat,                   // driver sessions created so far: 0..created
    shut: set<Driver>)              // driver sessions whose Close has been called

  /** An operation from the moment it owns session.mu. */
  predicate Operating(pc: Pc) {
    pc.OpLocked? || pc.OpMetadata? || pc.OpPermitted? || pc.OpActive? || pc.OpReleased? || pc.OpReturned? || pc.OpClosing?
  }

  predicate HoldsMu(pc: Pc) {
    pc.CloseLocked? || pc.ValidateLocked? || Operating(pc)
  }

  predicate HasAgent(pc: Pc) {
    HoldsMu(pc) || pc.CloseFound? || pc.ValidateFound? || pc.OpFound?
  }

  predicate MuFree(s: State, serial: nat) {
    forall t :: t in s.pcs && HoldsMu(s.pcs[t]) ==> s.pcs[t].agent.serial != serial
  }

  /** The driver sessions a thread has taken out of a runtime in order to close them. */
  function Hand(pc: Pc): seq<Driver> {
    if pc.Closing? || pc.OpActive? || pc.OpReleased? || pc.OpReturned? || pc.OpClosing? then pc.hand else []
  }

  /** The source closes what it holds once it is past the mutex and the permits. */
  predicate ClosesDrivers(pc: Pc) {
    Hand(pc) != [] && (pc.Closing? || pc.OpActive? || pc.OpClosing?)
  }

  function AfterClosing(pc: Pc, hand: seq<Driver>): Pc
    requires ClosesDrivers(pc)
  {
    match pc
    case Closing(_) => if hand == [] then Idle else Closing(hand)
    case OpActive(a, m, g, o, _) => OpActive(a, m, g, o, hand)
    case OpClosing(a, g, _) => OpClosing(a, g, hand)
  }

  /** The runtime whose driver sessions a thread may ask for. */
  predicate UsesRuntime(pc: Pc) {
    pc.OpenHolding? || pc.ValidateLocked? || pc.OpActive? || pc.Testing?
  }

  predicate HasRuntime(pc: Pc) {
    HasAgent(pc) || pc.OpenHolding? || pc.OpenValidated? || pc.Releasing? || pc.ClosingRuntime? || pc.Testing?
  }

  function RuntimeOf(pc: Pc): RtId
    requires HasRuntime(pc)
  {
    if HasAgent(pc) then pc.agent.rt else pc.rt
  }

  datatype Event =
    | OpenCheck(name: string, key: string)                            // openSession, first r.mu block
    | OpenAcquire(pool: Option<int>, metadataLimit: Option<int>)      // acquireRuntime
    | OpenConfigInvalid                                               // newConnectionRuntime fails
    | OpenAccepted                                                    // validateConnection answers
    | OpenFailed                                                      // validateConnection fails
    | OpenRegister                                                    // openSession, last r.mu block
    | Release                                                         // releaseRuntime, runtimesMu block
    | CloseRuntime(order: seq<string>)                                // connectionRuntime.close, mu block
    | CloseDriver                                                     // one session.Close()
    | CloseLookup(name: string)
    | CloseLock
    | CloseUnlock
    | ValidateLookup(name: string)
    | ValidateLock
    | ValidateUnlock
    | OpLookup(name: string, metadata: bool)
    | OpLock
    | OpTakeMetadata                                                  // metadataPermits <- struct{}{}
    | OpTakePermit                                                    // permits <- struct{}{}
    | OpTimeout                                                       // ctx.Done() in either select
    | OpBegin
    | Use(keyspace: string, ok: bool)                                 // sessionFor
    | OpInvalidate                                                    // after schema-changing CQL
    | OpEnd                                                           // release closure, mu block
    | OpReturnPermit
    | OpReturnMetadata
    | OpUnlock
    | TestCreate(key: string, pool: Option<int>, metadataLimit: Option<int>)  // test_connection
    | TestDone

  function Go(s: State, t: Tid, pc: Pc): State {
    s.(pcs := s.pcs[t := pc])
  }

  function Put(s: State, rt: RtId, r: Runtime): State
    requires rt < |s.heap|
  {
    s.(heap := s.heap[rt := r])
  }

  function Fresh(key: string, pool: Option<int>, metadata: Option<int>): Runtime {
    NewRuntime(key, PoolSize(pool), MetadataLimit(PoolSize(pool), metadata))
  }

  /** acquireRuntime: reuse the runtime of the key or create it, and count one reference. */
  function Acquire(s: State, t: Tid, name: string, key: string, pool: Option<int>, metadata: Option<int>): State
    requires key in s.runtimes ==> s.runtimes[key] < |s.heap|
  {
    if key in s.runtimes then
      var rt := s.runtimes[key];
      Go(Put(s, rt, s.heap[rt].(references := s.heap[rt].references + 1)), t, OpenHolding(name, key, rt))
    else
      var rt := |s.heap|;
      Go(s.(runtimes := s.runtimes[key := rt], heap := s.heap + [Fresh(key, pool, metadata).(references := 1)]),
         t, OpenHolding(name, key, rt))
  }

  /** The critical section of releaseRuntime and what its caller does next. */
  function ReleaseRuntime(s: State, t: Tid, key: string): State
    requires key in s.runtimes ==> s.runtimes[key] < |s.heap|
  {
    if key == "" || key !in s.runtimes then Go(s, t, Idle)
    else
      var rt := s.runtimes[key];
      var r := s.heap[rt];
      var r' := if r.references > 0 then r.(references := r.references - 1) else r;
      if r'.references == 0 then Go(Put(s, rt, r').(runtimes := s.runtimes - {key}), t, ClosingRuntime(rt))
      else Go(Put(s, rt, r'), t, Idle)
  }

  /** Events that change one runtime, but neither its references nor its place in the map. */
  predicate Inner(ev: Event) {
    ev.OpTakeMetadata? || ev.OpTakePermit? || ev.OpTimeout? || ev.OpBegin? || ev.Use? || ev.OpInvalidate? || ev.OpEnd? ||
    ev.OpReturnPermit? || ev.OpReturnMetadata? || ev.CloseRuntime?
  }

  /** The guard of an inner event, for a thread at `pc` working on runtime `r`. */
  ghost predicate InnerReady(pc: Pc, r: Runtime, ev: Event)
    requires Inner(ev)
  {
    match ev
    case OpTakeMetadata => pc.OpLocked? && pc.metadata && r.metadataPermits < r.metadataLimit
    case OpTakePermit => (pc.OpMetadata? || (pc.OpLocked? && !pc.metadata)) && r.permits < r.poolSize
    case OpTimeout => pc.OpLocked? || pc.OpMetadata?
    case OpBegin => pc.OpPermitted?
    case Use(_, _) => UsesRuntime(pc)
    case OpInvalidate => pc.OpActive? && pc.hand == []
    case OpEnd => pc.OpActive? && pc.hand == []
    case OpReturnPermit => pc.OpReleased?
    case OpReturnMetadata => pc.OpReturned?
    case CloseRuntime(order) => pc.ClosingRuntime? && Enumerates(order, r.sessions)
  }

  function Offer(ok: bool, spare: Driver): Option<Driver> {
    if ok then Some(spare) else None
  }

  /** What an inner event does to the thread and to its runtime; `spare` names the driver
      session that CreateSession would return. */
  function InnerStep(pc: Pc, r: Runtime, ev: Event, shut: set<Driver>, spare: Driver): (Pc, Runtime)
    requires Inner(ev) && InnerReady(pc, r, ev)
  {
    match ev
    case OpTakeMetadata => (OpMetadata(pc.agent, pc.guarded), r.(metadataPermits := r.metadataPermits + 1))
    case OpTakePermit => (OpPermitted(pc.agent, pc.OpMetadata?, pc.guarded), r.(permits := r.permits + 1))
    case OpTimeout => (Idle, if pc.OpLocked? then r else r.(metadataPermits := r.metadataPermits - 1))
    case OpBegin => (OpActive(pc.agent, pc.metadata, pc.guarded, {}, []), Begin(r))
    case Use(keyspace, ok) =>
      var (r', d) := Obtain(r, keyspace, shut, Offer(ok, spare));
      (if pc.OpActive? && d.Some? then OpActive(pc.agent, pc.metadata, pc.guarded, pc.obtained + {d.value}, pc.hand) else pc, r')
    case OpInvalidate =>
      var (r', hand) := Invalidate(r);
      (OpActive(pc.agent, pc.metadata, pc.guarded, pc.obtained, hand), r')
    case OpEnd =>
      var (r', hand) := End(r);
      (OpReleased(pc.agent, pc.metadata, pc.guarded, hand), r')
    case OpReturnPermit => (OpReturned(pc.agent, pc.metadata, pc.guarded, pc.hand), r.(permits := r.permits - 1))
    case OpReturnMetadata =>
      (OpClosing(pc.agent, pc.guarded, pc.hand), if pc.metadata then r.(metadataPermits := r.metadataPermits - 1) else r)
    case CloseRuntime(order) =>
      var (r', hand) := Close(r, order);
      (if hand == [] then Idle else Closing(hand), r')
  }

  /** sessionFor has created a driver session. */
  predicate Made(r: Runtime, ev: Event, shut: set<Driver>, spare: Driver) {
    ev.Use? && Creates(r, ev.keyspace, shut, Offer(ev.ok, spare))
  }

  /** Events that only move the thread, after a look at the registered sessions. */
  predicate Local(ev: Event) {
    ev.OpenCheck? || ev.OpenConfigInvalid? || ev.OpenAccepted? || ev.OpenFailed? || ev.CloseLock? || ev.CloseUnlock? ||
    ev.ValidateLookup? || ev.ValidateLock? || ev.ValidateUnlock? || ev.OpLookup? || ev.OpLock? || ev.OpUnlock? || ev.TestDone?
  }

  predicate Locks(ev: Event) {
    ev.CloseLock? || ev.ValidateLock? || ev.OpLock?
  }

  predicate LocalReady(registered: map<string, Agent>, pc: Pc, ev: Event)
    requires Local(ev)
  {
    match ev
    case OpenCheck(_, key) => pc.Idle? && key != ""
    case OpenConfigInvalid => pc.OpenChecked?
    case OpenAccepted => pc.OpenHolding?
    case OpenFailed => pc.OpenHolding?
    case CloseLock => pc.CloseFound?
    case CloseUnlock => pc.CloseLocked?
    case ValidateLookup(name) => pc.Idle? && name in registered
    case ValidateLock => pc.ValidateFound?
    case ValidateUnlock => pc.ValidateLocked?
    case OpLookup(name, _) => pc.Idle? && name in registered
    case OpLock => pc.OpFound?
    case OpUnlock => pc.OpClosing? && pc.hand == []
    case TestDone => pc.Testing?
  }

  function LocalStep(registered: map<string, Agent>, pc: Pc, ev: Event): Pc
    requires Local(ev) && LocalReady(registered, pc, ev)
  {
    match ev
    case OpenCheck(name, key) =>
      if name in registered || |registered| >= MAX_AGENT_SESSIONS then Idle else OpenChecked(name, key)
    case OpenConfigInvalid => Idle
    case OpenAccepted => OpenValidated(pc.name, pc.key, pc.rt)
    case OpenFailed => Releasing(pc.key, pc.rt)
    case CloseLock => CloseLocked(pc.agent)
    case CloseUnlock => Releasing(pc.agent.key, pc.agent.rt)
    case ValidateLookup(name) => ValidateFound(registered[name])
    case ValidateLock => ValidateLocked(pc.agent)
    case ValidateUnlock => Idle
    case OpLookup(name, metadata) => OpFound(registered[name], metadata)
    case OpLock => OpLocked(pc.agent, pc.metadata, pc.agent.name in registered && registered[pc.agent.name] == pc.agent)
    case OpUnlock => Idle
    case TestDone => ClosingRuntime(pc.rt)
  }

  /** What the events that stay within one runtime ask for. */
  ghost predicate InnerEnabled(s: State, t: Tid, ev: Event) {
    && t in s.pcs && HasRuntime(s.pcs[t]) && RuntimeOf(s.pcs[t]) < |s.heap|
    && Inner(ev) && InnerReady(s.pcs[t], s.heap[RuntimeOf(s.pcs[t])], ev)
  }

  /** A thread may take the event now.  That runtimes are found in the heap is not a
      restriction: CassandraReferences proves it of every reachable state. */
  ghost predicate Enabled(s: State, t: Tid, ev: Event) {
    && t in s.pcs
    && var pc := s.pcs[t];
    && (HasRuntime(pc) ==> RuntimeOf(pc) < |s.heap|)
    && if Local(ev) then
         LocalReady(s.registered, pc, ev) && (Locks(ev) ==> MuFree(s, pc.agent.serial))
       else if Inner(ev) then
         InnerEnabled(s, t, ev)
       else
         match ev
         case OpenAcquire(_, _) => pc.OpenChecked? && (pc.key in s.runtimes ==> s.runtimes[pc.key] < |s.heap|)
         case OpenRegister => pc.OpenValidated?
         case Release => pc.Releasing? && (pc.key in s.runtimes ==> s.runtimes[pc.key] < |s.heap|)
         case CloseDriver => ClosesDrivers(pc)
         case CloseLookup(_) => pc.Idle?
         case TestCreate(_, _, _) => pc.Idle?
  }

  function InnerNext(s: State, t: Tid, ev: Event): State
    requires InnerEnabled(s, t, ev)
  {
    var pc := s.pcs[t];
    var rt := RuntimeOf(pc);
    var (pc', r) := InnerStep(pc, s.heap[rt], ev, s.shut, s.created);
    Go(Put(s, rt, r), t, pc').(created := if Made(s.heap[rt], ev, s.shut, s.created) then s.created + 1 else s.created)
  }

  /** openSession, last block: the name may have been taken since the first one. */
  function Register(s: State, t: Tid): State
    requires t in s.pcs && s.pcs[t].OpenValidated?
  {
    var pc := s.pcs[t];
    if pc.name in s.registered then Go(s, t, Releasing(pc.key, pc.rt))
    else
      var agent := Agent(s.serials, pc.name, pc.key, pc.rt);
      Go(s.(registered := s.registered[pc.name := agent], serials := s.serials + 1), t, Idle)
  }

  /** closeSession, first block. */
  function Deregister(s: State, t: Tid, name: string): State {
    if name !in s.registered then s
    else Go(s.(registered := s.registered - {name}), t, CloseFound(s.registered[name]))
  }

  function CloseOne(s: State, t: Tid): State
    requires t in s.pcs && ClosesDrivers(s.pcs[t])
  {
    var hand := Hand(s.pcs[t]);
    Go(s.(shut := s.shut + {hand[0]}), t, AfterClosing(s.pcs[t], hand[1..]))
  }

  function StartTest(s: State, t: Tid, r: Runtime): State {
    Go(s.(heap := s.heap + [r]), t, Testing(|s.heap|))
  }

  function Next(s: State, t: Tid, ev: Event): State
    requires Enabled(s, t, ev)
  {
    if Local(ev) then Go(s, t, LocalStep(s.registered, s.pcs[t], ev))
    else if Inner(ev) then InnerNext(s, t, ev)
    else
      match ev
      case OpenAcquire(pool, limit) => Acquire(s, t, s.pcs[t].name, s.pcs[t].key, pool, limit)
      case OpenRegister => Register(s, t)
      case Release => ReleaseRuntime(s, t, s.pcs[t].key)
      case CloseDriver => CloseOne(s, t)
      case CloseLookup(name) => Deregister(s, t, name)
      case TestCreate(key, pool, limit) => StartTest(s, t, Fresh(key, pool, limit))
  }

  /** Any number of idle threads; nothing has been opened. */
  ghost predicate Init(s: State) {
    s == State(map[], map[], [], s.pcs, 0, 0, {}) && forall t :: t in s.pcs ==> s.pcs[t] == Idle
  }

  datatype Move = Move(t: Tid, ev: Event)

  /** The moves can be made from `s`, one after the other. */
  ghost predicate Schedule(s: State, moves: seq<Move>)
    decreases |moves|
  {
    moves == [] || (Enabled(s, moves[0].t, moves[0].ev) && Schedule(Next(s, moves[0].t, moves[0].ev), moves[1..]))
  }

  ghost function Run(s: State, moves: seq<Move>): State
    requires Schedule(s, moves)
    decreases |moves|
  {
    if moves == [] then s else Run(Next(s, moves[0].t, moves[0].ev), moves[1..])
  }
}
