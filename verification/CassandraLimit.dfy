/** The limit on agent sessions, which openSession checks before it opens the connection and not again when it
    registers the session: how far it can be exceeded, exactly. */
module CassandraLimit {
  import opened Common
  import opened CassandraRuntime
  import opened CassandraAgent
  import opened CassandraReferences
  import opened CassandraSafety
  import opened CassandraWitness
  import L = CassandraLedger

  // ---- no further than one session for every request in flight ----

  /** An open that has passed the check and has not registered yet. */
  predicate Opening(pc: Pc) {
    pc.OpenChecked? || pc.OpenHolding? || pc.OpenValidated?
  }

  function Openings(pcs: map<Tid, Pc>): set<Tid> {
    set t | t in pcs && Opening(pcs[t])
  }

  ghost predicate Limited(s: State) {
    |s.registered| + |Openings(s.pcs)| <= MAX_AGENT_SESSIONS - 1 + |s.pcs|
  }

  lemma OpeningsAfter(pcs: map<Tid, Pc>, t: Tid, pc: Pc)
    requires t in pcs
    ensures |Openings(pcs[t := pc])| <= |pcs[t := pc]| == |pcs|
    ensures |Openings(pcs[t := pc])| == |Openings(pcs)| + L.One(Opening(pc)) - L.One(Opening(pcs[t]))
  {
    var after, others := pcs[t := pc], Openings(pcs) - {t};
    assert after.Keys == pcs.Keys;
    L.SubsetSize(Openings(after), after.Keys);
    assert Openings(after) == if Opening(pc) then others + {t} else others;
    assert Openings(pcs) == if Opening(pcs[t]) then others + {t} else others;
  }

  /** What a step may do to the registered sessions and to the opens under way. */
  ghost predicate Admits(s: State, t: Tid, s': State) {
    && t in s.pcs && t in s'.pcs && s'.pcs == s.pcs[t := s'.pcs[t]]
    && var pc, pc' := s.pcs[t], s'.pcs[t];
    || (|s'.registered| <= |s.registered| && (Opening(pc') ==> Opening(pc)))
    || (|s'.registered| == |s.registered| + 1 && Opening(pc) && !Opening(pc'))
    || (s'.registered == s.registered && |s.registered| < MAX_AGENT_SESSIONS)
  }

  lemma AdmitsKeeps(s: State, t: Tid, s': State)
    requires Limited(s) && Admits(s, t, s')
    ensures Limited(s')
  {
    OpeningsAfter(s.pcs, t, s'.pcs[t]);
  }

  lemma LocalAdmits(registered: map<string, Agent>, pc: Pc, ev: Event)
    requires Local(ev) && LocalReady(registered, pc, ev)
    ensures Opening(LocalStep(registered, pc, ev)) ==> Opening(pc) || |registered| < MAX_AGENT_SESSIONS
  {
  }

  lemma InnerAdmits(pc: Pc, r: Runtime, ev: Event, shut: set<Driver>, spare: Driver)
    requires Inner(ev) && InnerReady(pc, r, ev)
    ensures Opening(InnerStep(pc, r, ev, shut, spare).0) ==> Opening(pc)
  {
  }

  lemma RegisterAdmits(s: State, t: Tid)
    requires t in s.pcs && s.pcs[t].OpenValidated?
    ensures Admits(s, t, Register(s, t))
  {
    var name := s.pcs[t].name;
    if name !in s.registered {
      assert Register(s, t).registered.Keys == s.registered.Keys + {name};
    }
  }

  lemma DeregisterAdmits(s: State, t: Tid, name: string)
    requires t in s.pcs && s.pcs[t].Idle?
    ensures Admits(s, t, Deregister(s, t, name))
  {
    if name in s.registered {
      assert (s.registered - {name}).Keys == s.registered.Keys - {name};
    }
  }

  lemma StepAdmits(s: State, t: Tid, ev: Event)
    requires Enabled(s, t, ev)
    ensures Admits(s, t, Next(s, t, ev))
  {
    if Local(ev) {
      LocalAdmits(s.registered, s.pcs[t], ev);
    } else if Inner(ev) {
      InnerAdmits(s.pcs[t], s.heap[RuntimeOf(s.pcs[t])], ev, s.shut, s.created);
    } else {
      OuterAdmits(s, t, ev);
    }
  }

  lemma OuterAdmits(s: State, t: Tid, ev: Event)
    requires Enabled(s, t, ev) && !Local(ev) && !Inner(ev)
    ensures Admits(s, t, Next(s, t, ev))
  {
    match ev
    case OpenRegister => RegisterAdmits(s, t);
    case CloseLookup(name) => DeregisterAdmits(s, t, name);
    case _ =>
  }

  lemma {:induction false} RunLimited(s: State, moves: seq<Move>)
    requires Limited(s) && Schedule(s, moves)
    ensures Limited(Run(s, moves))
    decreases |moves|
  {
    if moves != [] {
      var next := Next(s, moves[0].t, moves[0].ev);
      StepAdmits(s, moves[0].t, moves[0].ev);
      AdmitsKeeps(s, moves[0].t, next);
      RunLimited(next, moves[1..]);
    }
  }

  /** In every run there are at most 255 sessions and one for each request thread. */
  lemma SessionBound(s: State)
    requires Reachable(s)
    ensures |s.registered| + |Openings(s.pcs)| <= 255 + |s.pcs|
  {
    var start, moves :| Init(start) && Schedule(start, moves) && Run(start, moves) == s;
    assert Openings(start.pcs) == {};
    RunLimited(start, moves);
  }

  // ---- who gets a name ----

  /** An open request goes on if and only if the name is free and there are at most 255 sessions; otherwise it ends with
      nothing changed. */
  lemma OpenGoesOnIff(s: State, t: Tid, name: string, key: string)
    requires Enabled(s, t, OpenCheck(name, key))
    ensures var s' := Next(s, t, OpenCheck(name, key));
      && (s'.pcs[t].OpenChecked? <==> name !in s.registered && |s.registered| <= 255)
      && (!s'.pcs[t].OpenChecked? ==> s' == s)
  {
    assert !Next(s, t, OpenCheck(name, key)).pcs[t].OpenChecked? ==> s.pcs[t := Idle] == s.pcs;
  }

  predicate ClosesName(move: Move, name: string) {
    move.ev == CloseLookup(name)
  }

  lemma StepKeepsName(s: State, t: Tid, ev: Event, name: string)
    requires Enabled(s, t, ev) && name in s.registered && ev != CloseLookup(name)
    ensures name in Next(s, t, ev).registered && Next(s, t, ev).registered[name] == s.registered[name]
  {
  }

  /** In every schedule a registered session keeps its name until it is closed: a second open under the name never
      replaces it. */
  lemma {:induction false} NameIsKept(s: State, moves: seq<Move>, name: string)
    requires Schedule(s, moves) && name in s.registered
    requires forall i :: 0 <= i < |moves| ==> !ClosesName(moves[i], name)
    ensures name in Run(s, moves).registered && Run(s, moves).registered[name] == s.registered[name]
    decreases |moves|
  {
    if moves != [] {
      assert !ClosesName(moves[0], name);
      StepKeepsName(s, moves[0].t, moves[0].ev, name);
      NameIsKept(Next(s, moves[0].t, moves[0].ev), moves[1..], name);
    }
  }

  // ---- and as far as that ----

  function Name(i: nat): string {
    seq(i, _ => 'a')
  }

  /** There are `count` sessions, with the first names. */
  ghost predicate Filled(s: State, count: nat) {
    |s.registered| == count && forall n :: n in s.registered ==> |n| < count
  }

  lemma MappedExists(s: State, key: string)
    requires Reachable(s) && key in s.runtimes
    ensures s.runtimes[key] < |s.heap|
  {
    ReachableInv(s);
  }

  /** An open that has passed the check goes through. */
  lemma FinishOpen(s: State, t: Tid) returns (s': State)
    requires Reachable(s) && t in s.pcs && s.pcs[t].OpenChecked? && s.pcs[t].name !in s.registered
    ensures Reachable(s') && s'.pcs == s.pcs[t := Idle]
    ensures s'.registered.Keys == s.registered.Keys + {s.pcs[t].name}
  {
    var a := AcquireFor(s, t);
    s' := Enter(a, t);
    assert s'.pcs == s.pcs[t := Idle];
  }

  lemma AcquireFor(s: State, t: Tid) returns (s': State)
    requires Reachable(s) && t in s.pcs && s.pcs[t].OpenChecked?
    ensures Reachable(s') && s'.registered == s.registered && t in s'.pcs && s'.pcs == s.pcs[t := s'.pcs[t]]
    ensures s'.pcs[t].OpenHolding? && s'.pcs[t].name == s.pcs[t].name && s'.pcs[t].rt < |s'.heap|
  {
    if s.pcs[t].key in s.runtimes {
      MappedExists(s, s.pcs[t].key);
    }
    s' := ThenAcquire(s, t);
  }

  lemma Enter(s: State, t: Tid) returns (s': State)
    requires Reachable(s) && t in s.pcs && s.pcs[t].OpenHolding? && s.pcs[t].rt < |s.heap| && s.pcs[t].name !in s.registered
    ensures Reachable(s') && s'.pcs == s.pcs[t := Idle] && s'.registered.Keys == s.registered.Keys + {s.pcs[t].name}
  {
    var a := ThenAccepted(s, t);
    s' := ThenRegister(a, t);
    assert a.pcs[t := Idle] == s.pcs[t := Idle];
  }

  lemma ThenAccepted(s: State, t: Tid) returns (s': State)
    requires Reachable(s) && t in s.pcs && s.pcs[t].OpenHolding? && s.pcs[t].rt < |s.heap|
    ensures Reachable(s') && s' == Go(s, t, OpenValidated(s.pcs[t].name, s.pcs[t].key, s.pcs[t].rt))
  {
    s' := ThenLocal(s, t, OpenAccepted);
  }

  lemma PassCheck(s: State, t: Tid, name: string) returns (s': State)
    requires Reachable(s) && t in s.pcs && s.pcs[t].Idle? && name !in s.registered && |s.registered| < MAX_AGENT_SESSIONS
    ensures Reachable(s') && s' == Go(s, t, OpenChecked(name, "k"))
  {
    s' := ThenLocal(s, t, OpenCheck(name, "k"));
  }

  lemma NextFilled(s: State, s': State, count: nat)
    requires Filled(s, count) && s'.registered.Keys == s.registered.Keys + {Name(count)}
    ensures Filled(s', count + 1)
  {
    assert |Name(count)| == count && Name(count) !in s.registered;
    assert |s'.registered| == |s'.registered.Keys| && |s.registered| == |s.registered.Keys|;
  }

  function Below(n: nat): (ts: set<Tid>)
    ensures |ts| == n && forall t: nat :: t in ts <==> t < n
  {
    if n == 0 then {} else Below(n - 1) + {n - 1}
  }

  /** Threads number `from` up to `to` of `n` have passed the check, each for a name of its own; the others are idle. */
  function Threads(n: nat, from: nat, to: nat): map<Tid, Pc> {
    map t | t in Below(n) :: Role(t, from, to)
  }

  const BASE := MAX_AGENT_SESSIONS - 1

  function Role(t: nat, from: nat, to: nat): Pc {
    if from <= t < to then OpenChecked(Name(BASE + t), "k") else Idle
  }

  /** A reachable state with `count` sessions and `n` threads in these roles. */
  ghost predicate Scene(s: State, count: nat, n: nat, from: nat, to: nat) {
    Reachable(s) && Filled(s, count) && s.pcs == Threads(n, from, to)
  }

  lemma Beginning(n: nat) returns (s: State)
    ensures Scene(s, 0, n, 0, 0)
  {
    s := State(map[], map[], [], Threads(n, 0, 0), 0, 0, {});
    assert Init(s) && Schedule(s, []) && Run(s, []) == s;
  }

  /** One thread opens one session. */
  lemma OpenOne(s: State, t: Tid, name: string) returns (s': State)
    requires Reachable(s) && t in s.pcs && s.pcs[t].Idle? && name !in s.registered && |s.registered| < MAX_AGENT_SESSIONS
    ensures Reachable(s') && s'.pcs == s.pcs && s'.registered.Keys == s.registered.Keys + {name}
  {
    var checked := PassCheck(s, t, name);
    s' := FinishOpen(checked, t);
    assert checked.pcs[t := Idle] == s.pcs;
  }

  lemma FillOne(s: State, count: nat, n: nat) returns (s': State)
    requires n >= 1 && count < MAX_AGENT_SESSIONS && Scene(s, count, n, 0, 0)
    ensures Scene(s', count + 1, n, 0, 0)
  {
    assert 0 in Below(n);
    NameIsFree(s, count, count);
    s' := OpenOne(s, 0, Name(count));
    NextFilled(s, s', count);
  }

  /** One thread opens sessions up to the limit. */
  lemma {:induction false} FillUp(n: nat, count: nat) returns (s: State)
    requires n >= 1 && count <= MAX_AGENT_SESSIONS
    ensures Scene(s, count, n, 0, 0)
    decreases count
  {
    if count == 0 {
      s := Beginning(n);
    } else {
      var before := FillUp(n, count - 1);
      s := FillOne(before, count - 1, n);
    }
  }

  /** Moving one thread on, when its role is the only one that differs. */
  lemma RoleChanges(n: nat, from: nat, to: nat, from': nat, to': nat, t: nat)
    requires t < n && forall u: nat :: u != t ==> Role(u, from, to) == Role(u, from', to')
    ensures t in Threads(n, from, to) && Threads(n, from, to)[t] == Role(t, from, to)
    ensures Threads(n, from, to)[t := Role(t, from', to')] == Threads(n, from', to')
  {
    ThreadsAre(n, from, to, Threads(n, from, to));
    ThreadsAre(n, from', to', Threads(n, from', to'));
    OneMoved(Threads(n, from, to), Threads(n, from', to'), t);
  }

  lemma ThreadsAre(n: nat, from: nat, to: nat, pcs: map<Tid, Pc>)
    requires pcs == Threads(n, from, to)
    ensures forall u: nat :: u in pcs <==> u < n
    ensures forall u :: u in pcs ==> pcs[u] == Role(u, from, to)
  {
  }

  lemma OneMoved(a: map<Tid, Pc>, b: map<Tid, Pc>, t: Tid)
    requires a.Keys == b.Keys && t in a && forall u :: u in a && u != t ==> a[u] == b[u]
    ensures a[t := b[t]] == b
  {
  }

  lemma NameIsFree(s: State, count: nat, i: nat)
    requires Filled(s, count) && count <= i
    ensures Name(i) !in s.registered
  {
    assert |Name(i)| == i;
  }

  /** Thread number `m` passes the check, */
  lemma PassOne(s: State, n: nat, m: nat) returns (s': State)
    requires Scene(s, BASE, n, 0, m) && m < n
    ensures Scene(s', BASE, n, 0, m + 1)
  {
    NameIsFree(s, BASE, BASE + m);
    NextStands(s, n, m);
    s' := PassCheck(s, m, Name(BASE + m));
    NextPassed(s, s', n, m);
  }

  lemma NextStands(s: State, n: nat, m: nat)
    requires s.pcs == Threads(n, 0, m) && m < n
    ensures m in s.pcs && s.pcs[m] == Idle
  {
    assert m in Below(n);
  }

  lemma NextPassed(s: State, s': State, n: nat, m: nat)
    requires Scene(s, BASE, n, 0, m) && m < n && Reachable(s') && s'.registered == s.registered
    requires s'.pcs == s.pcs[m := OpenChecked(Name(BASE + m), "k")]
    ensures Scene(s', BASE, n, 0, m + 1)
  {
    RoleChanges(n, 0, m, 0, m + 1, m);
  }

  /** and thread number `k` goes through, after which there are `count` sessions. */
  lemma FinishOne(s: State, n: nat, k: nat, count: nat, next: nat) returns (s': State)
    requires count == BASE + next && next == k + 1 && k < n && Scene(s, BASE + k, n, k, n)
    ensures Scene(s', count, n, next, n)
  {
    NameIsFree(s, BASE + k, BASE + k);
    RoleChanges(n, k, n, k + 1, n, k);
    s' := FinishOpen(s, k);
    NextFilled(s, s', BASE + k);
  }

  lemma {:induction false} AllPass(s: State, n: nat, m: nat) returns (s': State)
    requires Scene(s, BASE, n, 0, 0) && m <= n
    ensures Scene(s', BASE, n, 0, m)
    decreases m
  {
    if m == 0 {
      s' := s;
    } else {
      var before := AllPass(s, n, m - 1);
      s' := PassOne(before, n, m - 1);
    }
  }

  lemma {:induction false} AllFinish(s: State, n: nat, k: nat) returns (s': State)
    requires Scene(s, BASE, n, 0, n) && k <= n
    ensures Scene(s', BASE + k, n, k, n)
    decreases k
  {
    if k == 0 {
      s' := s;
    } else {
      var before := AllFinish(s, n, k - 1);
      s' := FinishOne(before, n, k - 1, BASE + k, k);
    }
  }

  /** The bound is reached: with `n` requests at once some run has 255 + n sessions, more than the limit of 256 as
      soon as two opens overlap. */
  lemma LimitCanBeExceeded(n: nat) returns (s: State)
    requires n >= 1
    ensures Reachable(s) && |s.pcs| == n && |s.registered| == 255 + n
  {
    var filled := FillUp(n, BASE);
    var waiting := AllPass(filled, n, n);
    s := AllFinish(waiting, n, n);
    assert s.pcs.Keys == Below(n);
  }
}
