/** A schedule of the Cassandra agent that shows where its protection ends. */
module CassandraWitness {
  import opened Common
  import opened CassandraRuntime
  import opened CassandraAgent
  import opened CassandraSafety

  lemma {:induction false} RunSnoc(s: State, moves: seq<Move>, t: Tid, ev: Event)
    requires Schedule(s, moves) && Enabled(Run(s, moves), t, ev)
    ensures Schedule(s, moves + [Move(t, ev)]) && Run(s, moves + [Move(t, ev)]) == Next(Run(s, moves), t, ev)
    decreases |moves|
  {
    var more := moves + [Move(t, ev)];
    if moves == [] {
      assert more[1..] == [];
    } else {
      RunSnoc(Next(s, moves[0].t, moves[0].ev), moves[1..], t, ev);
      assert more[1..] == moves[1..] + [Move(t, ev)];
    }
  }

  /** One more step of a run. */
  lemma Then(s: State, t: Tid, ev: Event) returns (s': State)
    requires Reachable(s) && Enabled(s, t, ev)
    ensures Reachable(s') && s' == Next(s, t, ev)
  {
    var s0, moves :| Init(s0) && Schedule(s0, moves) && Run(s0, moves) == s;
    RunSnoc(s0, moves, t, ev);
    s' := Next(s, t, ev);
    assert Init(s0) && Schedule(s0, moves + [Move(t, ev)]) && Run(s0, moves + [Move(t, ev)]) == s';
  }

  ghost predicate Follows(s: State, m: Move, s': State) {
    Enabled(s, m.t, m.ev) && s' == Next(s, m.t, m.ev)
  }

  lemma TwoMoves(s: State, a: Move, mid: State, b: Move, end: State)
    requires Follows(s, a, mid) && Follows(mid, b, end)
    ensures Schedule(s, [a, b]) && Run(s, [a, b]) == end
  {
    assert [] + [Move(a.t, a.ev)] == [a] && [a] + [Move(b.t, b.ev)] == [a, b];
    RunSnoc(s, [], a.t, a.ev);
    RunSnoc(s, [a], b.t, b.ev);
  }

  /** A step that only moves its thread. */
  lemma ThenLocal(s: State, t: Tid, ev: Event) returns (s': State)
    requires Reachable(s) && t in s.pcs && (HasRuntime(s.pcs[t]) ==> RuntimeOf(s.pcs[t]) < |s.heap|)
    requires Local(ev) && LocalReady(s.registered, s.pcs[t], ev) && (Locks(ev) ==> MuFree(s, s.pcs[t].agent.serial))
    ensures Reachable(s') && s' == Go(s, t, LocalStep(s.registered, s.pcs[t], ev))
  {
    s' := Then(s, t, ev);
  }

  /** A step that changes its thread and its runtime. */
  lemma ThenInner(s: State, t: Tid, ev: Event) returns (s': State)
    requires Reachable(s) && t in s.pcs && HasRuntime(s.pcs[t]) && RuntimeOf(s.pcs[t]) < |s.heap| && Inner(ev)
    requires InnerReady(s.pcs[t], s.heap[RuntimeOf(s.pcs[t])], ev)
    ensures Reachable(s') && s' == InnerNext(s, t, ev) && Follows(s, Move(t, ev), s')
  {
    s' := Then(s, t, ev);
  }

  lemma ThenAcquire(s: State, t: Tid) returns (s': State)
    requires Reachable(s) && t in s.pcs && s.pcs[t].OpenChecked?
    requires s.pcs[t].key in s.runtimes ==> s.runtimes[s.pcs[t].key] < |s.heap|
    ensures Reachable(s') && s' == Acquire(s, t, s.pcs[t].name, s.pcs[t].key, None, None)
  {
    s' := Then(s, t, OpenAcquire(None, None));
  }

  lemma ThenRegister(s: State, t: Tid) returns (s': State)
    requires Reachable(s) && t in s.pcs && s.pcs[t].OpenValidated? && s.pcs[t].rt < |s.heap|
    ensures Reachable(s') && s' == Register(s, t)
  {
    s' := Then(s, t, OpenRegister);
  }

  lemma ThenRelease(s: State, t: Tid) returns (s': State)
    requires Reachable(s) && t in s.pcs && s.pcs[t].Releasing? && s.pcs[t].rt < |s.heap|
    requires s.pcs[t].key in s.runtimes ==> s.runtimes[s.pcs[t].key] < |s.heap|
    ensures Reachable(s') && s' == ReleaseRuntime(s, t, s.pcs[t].key)
  {
    s' := Then(s, t, Release);
  }

  lemma ThenDeregister(s: State, t: Tid, name: string) returns (s': State)
    requires Reachable(s) && t in s.pcs && s.pcs[t].Idle?
    ensures Reachable(s') && s' == Deregister(s, t, name)
  {
    s' := Then(s, t, CloseLookup(name));
  }

  lemma ThenCloseDriver(s: State, t: Tid) returns (s': State)
    requires Reachable(s) && t in s.pcs && s.pcs[t].Closing? && s.pcs[t].hand != []
    ensures Reachable(s') && s' == CloseOne(s, t) && Follows(s, Move(t, CloseDriver), s')
  {
    s' := Then(s, t, CloseDriver);
  }

  // ---- a driver session closed under an active operation ----

  const AGENT := Agent(0, "a", "k", 0)

  /** Where three threads stand. */
  datatype Cast = Cast(one: Pc, two: Pc, three: Pc)

  function Of(c: Cast, t: Tid): Pc {
    if t == 1 then c.one else if t == 2 then c.two else c.three
  }

  function With(c: Cast, t: Tid, pc: Pc): Cast {
    if t == 1 then c.(one := pc) else if t == 2 then c.(two := pc) else c.(three := pc)
  }

  /** One runtime and three threads. */
  ghost predicate Stage(s: State, r: Runtime, c: Cast) {
    s.heap == [r] && s.pcs.Keys == {1, 2, 3} && forall t :: t in s.pcs ==> s.pcs[t] == Of(c, t)
  }

  lemma StageGo(s: State, r: Runtime, c: Cast, t: Tid, s': State, r': Runtime, pc: Pc)
    requires Stage(s, r, c) && t in {1, 2, 3} && s'.heap == [r'] && s'.pcs == s.pcs[t := pc]
    ensures Stage(s', r', With(c, t, pc))
  {
  }

  predicate SameOutside(s: State, s': State) {
    s'.registered == s.registered && s'.runtimes == s.runtimes && s'.serials == s.serials && s'.shut == s.shut
  }

  lemma StageLocal(s: State, r: Runtime, c: Cast, t: Tid, ev: Event) returns (s': State)
    requires Reachable(s) && Stage(s, r, c) && t in {1, 2, 3} && (HasRuntime(Of(c, t)) ==> RuntimeOf(Of(c, t)) == 0)
    requires Local(ev) && LocalReady(s.registered, Of(c, t), ev)
    requires Locks(ev) ==> !HoldsMu(c.one) && !HoldsMu(c.two) && !HoldsMu(c.three)
    ensures Reachable(s') && Stage(s', r, With(c, t, LocalStep(s.registered, Of(c, t), ev)))
    ensures SameOutside(s, s') && s'.created == s.created
  {
    s' := ThenLocal(s, t, ev);
    StageGo(s, r, c, t, s', r, LocalStep(s.registered, Of(c, t), ev));
  }

  lemma StageInner(s: State, r: Runtime, c: Cast, t: Tid, ev: Event, pc: Pc, r': Runtime) returns (s': State)
    requires Reachable(s) && Stage(s, r, c) && t in {1, 2, 3} && HasRuntime(Of(c, t)) && RuntimeOf(Of(c, t)) == 0
    requires Inner(ev) && InnerReady(Of(c, t), r, ev) && InnerStep(Of(c, t), r, ev, s.shut, s.created) == (pc, r')
    ensures Reachable(s') && Stage(s', r', With(c, t, pc)) && SameOutside(s, s') && Follows(s, Move(t, ev), s')
    ensures s'.created == if Made(r, ev, s.shut, s.created) then s.created + 1 else s.created
  {
    s' := ThenInner(s, t, ev);
    assert s'.heap == [r'];
    StageGo(s, r, c, t, s', r', pc);
  }

  function Only(sessions: map<string, Driver>, retired: seq<Driver>, active: int, references: int): Runtime {
    Runtime("k", sessions, retired, active, 0, DEFAULT_POOL_SIZE, DEFAULT_METADATA_LIMIT, active, references, false)
  }

  const LIVE: map<string, Driver> := map["" := 0]

  lemma Started() returns (s: State)
    ensures Reachable(s) && s == State(map[], map[], [], map[1 := Idle, 2 := Idle, 3 := Idle], 0, 0, {})
  {
    s := State(map[], map[], [], map[1 := Idle, 2 := Idle, 3 := Idle], 0, 0, {});
    assert Init(s) && Schedule(s, []) && Run(s, []) == s;
  }

  lemma Opening() returns (s: State)
    ensures Reachable(s)
    ensures s == State(map[], map[], [], map[1 := OpenChecked("a", "k"), 2 := Idle, 3 := Idle], 0, 0, {})
  {
    s := Started();
    s := ThenLocal(s, 1, OpenCheck("a", "k"));
  }

  /** Thread 1 opens a session on a new runtime. */
  lemma Acquired() returns (s: State)
    ensures Reachable(s) && Stage(s, Only(map[], [], 0, 1), Cast(OpenHolding("a", "k", 0), Idle, Idle))
    ensures s.registered == map[] && s.runtimes == map["k" := 0] && s.serials == s.created == 0 && s.shut == {}
  {
    s := Opening();
    s := ThenAcquire(s, 1);
  }

  /** Its check of the connection creates driver session 0. */
  lemma Checked() returns (s: State)
    ensures Reachable(s) && Stage(s, Only(LIVE, [], 0, 1), Cast(OpenHolding("a", "k", 0), Idle, Idle))
    ensures s.registered == map[] && s.runtimes == map["k" := 0] && s.serials == 0 && s.created == 1 && s.shut == {}
  {
    s := Acquired();
    assert Trim("") == "";
    var c := Cast(OpenHolding("a", "k", 0), Idle, Idle);
    s := StageInner(s, Only(map[], [], 0, 1), c, 1, Use("", true), c.one, Only(LIVE, [], 0, 1));
  }

  lemma Opened() returns (s: State)
    ensures Reachable(s) && Stage(s, Only(LIVE, [], 0, 1), Cast(Idle, Idle, Idle))
    ensures s.registered == map["a" := AGENT] && s.runtimes == map["k" := 0] && s.created == 1 && s.shut == {}
  {
    s := Checked();
    s := StageLocal(s, Only(LIVE, [], 0, 1), Cast(OpenHolding("a", "k", 0), Idle, Idle), 1, OpenAccepted);
    var before := s;
    s := ThenRegister(s, 1);
    StageGo(before, Only(LIVE, [], 0, 1), Cast(OpenValidated("a", "k", 0), Idle, Idle), 1, s, Only(LIVE, [], 0, 1), Idle);
  }

  /** Thread 2 looks the session up, */
  lemma LookedUp() returns (s: State)
    ensures Reachable(s) && Stage(s, Only(LIVE, [], 0, 1), Cast(Idle, OpFound(AGENT, false), Idle))
    ensures s.registered == map["a" := AGENT] && s.runtimes == map["k" := 0] && s.created == 1 && s.shut == {}
  {
    s := Opened();
    s := StageLocal(s, Only(LIVE, [], 0, 1), Cast(Idle, Idle, Idle), 2, OpLookup("a", false));
  }

  /** and thread 3 closes it. */
  lemma Found() returns (s: State)
    ensures Reachable(s) && Stage(s, Only(LIVE, [], 0, 1), Cast(Idle, OpFound(AGENT, false), CloseFound(AGENT)))
    ensures s.registered == map[] && s.runtimes == map["k" := 0] && s.created == 1 && s.shut == {}
  {
    s := LookedUp();
    var before, r := s, Only(LIVE, [], 0, 1);
    s := ThenDeregister(s, 3, "a");
    StageGo(before, r, Cast(Idle, OpFound(AGENT, false), Idle), 3, s, r, CloseFound(AGENT));
  }

  lemma Unlocked() returns (s: State)
    ensures Reachable(s) && Stage(s, Only(LIVE, [], 0, 1), Cast(Idle, OpFound(AGENT, false), Releasing("k", 0)))
    ensures s.registered == map[] && s.runtimes == map["k" := 0] && s.created == 1 && s.shut == {}
  {
    s := Found();
    var two := OpFound(AGENT, false);
    s := StageLocal(s, Only(LIVE, [], 0, 1), Cast(Idle, two, CloseFound(AGENT)), 3, CloseLock);
    s := StageLocal(s, Only(LIVE, [], 0, 1), Cast(Idle, two, CloseLocked(AGENT)), 3, CloseUnlock);
  }

  lemma Released() returns (s: State)
    ensures Reachable(s) && Stage(s, Only(LIVE, [], 0, 0), Cast(Idle, OpFound(AGENT, false), ClosingRuntime(0)))
    ensures s.registered == map[] && s.created == 1 && s.shut == {}
  {
    s := Unlocked();
    var before, r := s, Only(LIVE, [], 0, 1);
    s := ThenRelease(s, 3);
    assert s.heap == [r.(references := 0)];
    StageGo(before, r, Cast(Idle, OpFound(AGENT, false), Releasing("k", 0)), 3, s, Only(LIVE, [], 0, 0), ClosingRuntime(0));
  }

  /** Thread 2 goes on all the same, */
  lemma Locked() returns (s: State)
    ensures Reachable(s) && Stage(s, Only(LIVE, [], 0, 0), Cast(Idle, OpLocked(AGENT, false, false), ClosingRuntime(0)))
    ensures s.created == 1 && s.shut == {}
  {
    s := Released();
    s := StageLocal(s, Only(LIVE, [], 0, 0), Cast(Idle, OpFound(AGENT, false), ClosingRuntime(0)), 2, OpLock);
  }

  function Active(obtained: set<Driver>): Cast {
    Cast(Idle, OpActive(AGENT, false, false, obtained, []), ClosingRuntime(0))
  }

  /** takes a permit, */
  lemma Begun() returns (s: State)
    ensures Reachable(s) && Stage(s, Only(LIVE, [], 1, 0), Active({})) && s.created == 1 && s.shut == {}
  {
    s := Locked();
    var permitted := OpPermitted(AGENT, false, false);
    var r := Only(LIVE, [], 0, 0).(permits := 1);
    s := StageInner(s, Only(LIVE, [], 0, 0), Cast(Idle, OpLocked(AGENT, false, false), ClosingRuntime(0)), 2, OpTakePermit, permitted, r);
    s := StageInner(s, r, Cast(Idle, permitted, ClosingRuntime(0)), 2, OpBegin, Active({}).two, Only(LIVE, [], 1, 0));
  }

  /** obtains the driver session, */
  lemma Obtained() returns (s: State)
    ensures Reachable(s) && Stage(s, Only(LIVE, [], 1, 0), Active({0})) && s.shut == {}
  {
    s := Begun();
    assert Trim("") == "";
    assert {} + {0} == {0};
    s := StageInner(s, Only(LIVE, [], 1, 0), Active({}), 2, Use("", true), Active({0}).two, Only(LIVE, [], 1, 0));
  }

  /** and retires it. */
  lemma Retired() returns (s: State)
    ensures Reachable(s) && Stage(s, Only(map[], [0], 1, 0), Active({0})) && s.shut == {}
  {
    s := Obtained();
    assert LIVE - {""} == map[] && [] + [0] == [0];
    assert Invalidate(Only(LIVE, [], 1, 0)) == (Only(map[], [0], 1, 0), []);
    s := StageInner(s, Only(LIVE, [], 1, 0), Active({0}), 2, OpInvalidate, Active({0}).two, Only(map[], [0], 1, 0));
  }

  lemma CloseStep(r: Runtime, r': Runtime)
    requires r == Only(map[], [0], 1, 0) && r' == r.(retired := [], closed := true)
    ensures Inner(CloseRuntime([])) && InnerReady(ClosingRuntime(0), r, CloseRuntime([]))
    ensures InnerStep(ClosingRuntime(0), r, CloseRuntime([]), {}, 1) == (Closing([0]), r')
  {
    var empty: map<string, Driver> := map[];
    assert Images([], empty) + [0] == [0];
    assert Close(r, []) == (r', [0]);
  }

  /** Thread 3 then closes the runtime and has the retired driver session in hand. */
  lemma TakenOut() returns (before: State, mid: State)
    ensures Reachable(before) && before.heap == [Only(map[], [0], 1, 0)] && before.shut == {}
    ensures 2 in before.pcs && before.pcs[2] == Active({0}).two
    ensures Reachable(mid) && Follows(before, Move(3, CloseRuntime([])), mid)
    ensures 2 in mid.pcs && 3 in mid.pcs && mid.pcs[2] == Active({0}).two && mid.pcs[3] == Closing([0])
  {
    before := Retired();
    var r := Only(map[], [0], 1, 0);
    var r' := r.(retired := [], closed := true);
    CloseStep(r, r');
    mid := StageInner(before, r, Active({0}), 3, CloseRuntime([]), Closing([0]), r');
  }

  /** A driver session is retired by a permit-holding operation that obtained it, and closed while that operation is
      still active: the operation had looked its session up before the session was closed, and locked it afterwards. */
  lemma ClosedInUse() returns (before: State, moves: seq<Move>, s: State)
    ensures Schedule(before, moves) && Run(before, moves) == s
    ensures Reachable(before) && before.heap != [] && 0 in before.heap[0].retired && 0 !in before.shut
    ensures 2 in before.pcs && 2 in s.pcs && before.pcs[2].OpActive? && s.pcs[2] == before.pcs[2]
    ensures Reachable(s) && 0 in s.pcs[2].obtained && !s.pcs[2].guarded && 0 in s.shut
  {
    var mid;
    before, mid := TakenOut();
    s := ThenCloseDriver(mid, 3);
    moves := [Move(3, CloseRuntime([])), Move(3, CloseDriver)];
    TwoMoves(before, moves[0], mid, moves[1], s);
  }
}
