/** Where every driver session is, in every interleaving.

    `home` assigns each created driver session one place: the live map of one runtime
    under one keyspace, the retired list of one runtime, the hand of one thread that took
    it out in order to close it, or closed.  The invariant says that the state agrees
    with such an assignment, slot by slot and driver by driver. */
module CassandraDrivers {
  import opened Common
  import opened CassandraRuntime
  import opened CassandraAgent
  import opened CassandraPermits
  import L = CassandraLedger

  datatype Home = InLive(rt: RtId, keyspace: string) | InRetired(rt: RtId) | InHand(t: Tid) | Shut

  type Homes = map<Driver, Home>

  predicate OwnedBy(h: Home, rt: RtId) {
    (h.InLive? || h.InRetired?) && h.rt == rt
  }

  /** Runtime `rt` holds only what is at home there, each once; closed, it holds nothing. */
  ghost predicate Stored(rt: RtId, r: Runtime, home: Homes) {
    && (forall k :: k in r.sessions ==> r.sessions[k] in home && home[r.sessions[k]] == InLive(rt, k))
    && (forall d :: d in r.retired ==> d in home && home[d] == InRetired(rt))
    && NoDuplicates(r.retired)
    && (r.closed ==> r.sessions == map[] && r.retired == [])
  }

  /** Thread `t` holds only what is at home in its hand, each once. */
  ghost predicate Carried(t: Tid, pc: Pc, home: Homes) {
    && (forall d :: d in Hand(pc) ==> d in home && home[d] == InHand(t))
    && NoDuplicates(Hand(pc))
    && (pc.OpActive? ==> pc.hand == [])
  }

  /** What an active operation obtained still belongs to its runtime, unless that is closed. */
  ghost predicate Backed(heap: seq<Runtime>, pc: Pc, home: Homes) {
    pc.OpActive? ==>
      && pc.agent.rt < |heap|
      && forall d :: d in pc.obtained ==> d in home && (heap[pc.agent.rt].closed || OwnedBy(home[d], pc.agent.rt))
  }

  ghost predicate Located(s: State, d: Driver, h: Home) {
    match h
    case InLive(rt, k) => rt < |s.heap| && k in s.heap[rt].sessions && s.heap[rt].sessions[k] == d
    case InRetired(rt) => rt < |s.heap| && d in s.heap[rt].retired
    case InHand(t) => t in s.pcs && d in Hand(s.pcs[t])
    case Shut => d in s.shut
  }

  ghost predicate Housed(s: State, home: Homes) {
    && (forall d: nat :: d in home <==> d < s.created)
    && (forall d :: d in home ==> Located(s, d, home[d]))
    && (forall d :: d in s.shut ==> d in home && home[d] == Shut)
    && (forall rt :: 0 <= rt < |s.heap| ==> Stored(rt, s.heap[rt], home))
    && (forall t :: t in s.pcs ==> Carried(t, s.pcs[t], home) && Backed(s.heap, s.pcs[t], home))
  }

  // ---- steps that move no driver session ----

  predicate SameStore(r: Runtime, r': Runtime) {
    r'.sessions == r.sessions && r'.retired == r.retired && r'.closed == r.closed
  }

  predicate SameCargo(pc: Pc, pc': Pc) {
    Hand(pc') == Hand(pc) && (pc'.OpActive? ==> if pc.OpActive? then pc' == pc else pc'.obtained == {} && pc'.hand == [])
  }

  lemma StillKeeps(s: State, t: Tid, s': State, home: Homes)
    requires Housed(s, home) && t in s.pcs && t in s'.pcs
    requires s'.pcs == s.pcs[t := s'.pcs[t]] && SameCargo(s.pcs[t], s'.pcs[t])
    requires s'.created == s.created && s'.shut == s.shut && |s.heap| <= |s'.heap|
    requires forall i :: 0 <= i < |s.heap| ==> SameStore(s.heap[i], s'.heap[i])
    requires forall i :: |s.heap| <= i < |s'.heap| ==> s'.heap[i].sessions == map[] && s'.heap[i].retired == []
    requires s'.pcs[t].OpActive? ==> s'.pcs[t].agent.rt < |s.heap|
    ensures Housed(s', home)
  {
    forall d | d in home
      ensures Located(s', d, home[d])
    {
      assert Located(s, d, home[d]);
    }
    forall rt | 0 <= rt < |s'.heap|
      ensures Stored(rt, s'.heap[rt], home)
    {
      assert rt < |s.heap| ==> Stored(rt, s.heap[rt], home);
    }
    forall u | u in s'.pcs
      ensures Carried(u, s'.pcs[u], home) && Backed(s'.heap, s'.pcs[u], home)
    {
      assert Carried(u, s.pcs[u], home) && Backed(s.heap, s.pcs[u], home);
    }
  }

  // ---- steps that move driver sessions of one runtime, or out of one hand ----

  /** Thread `t` and runtime `rt` change, and driver sessions move only out of these two, or
      come into being. */
  ghost predicate Moves(s: State, t: Tid, rt: RtId, s': State, home: Homes, home': Homes) {
    && t in s.pcs && t in s'.pcs && rt < |s.heap|
    && s'.pcs == s.pcs[t := s'.pcs[t]] && |s'.heap| == |s.heap| && s'.heap == s.heap[rt := s'.heap[rt]]
    && s'.shut == s.shut && s.created <= s'.created
    && (forall d: nat :: d in home' <==> d < s'.created)
    && (forall d :: d in home && home[d] != InHand(t) && !OwnedBy(home[d], rt) ==> d in home' && home'[d] == home[d])
  }

  /** Everything at home elsewhere stays; what was at home in `t` and `rt` is found again; what
      the runtime holds afterwards is still what other active operations rely on, unless the
      runtime is closed. */
  lemma Rehome(s: State, t: Tid, rt: RtId, s': State, home: Homes, home': Homes)
    requires Housed(s, home) && Moves(s, t, rt, s', home, home')
    requires forall d :: d in home' && (d !in home || home[d] == InHand(t) || OwnedBy(home[d], rt)) ==> Located(s', d, home'[d])
    requires Stored(rt, s'.heap[rt], home') && Carried(t, s'.pcs[t], home') && Backed(s'.heap, s'.pcs[t], home')
    requires Relied(s, t, rt, s', home, home')
    ensures Housed(s', home')
  {
    RehomeLocated(s, t, rt, s', home, home');
    RehomeThreads(s, t, rt, s', home, home');
    forall i | 0 <= i < |s'.heap|
      ensures Stored(i, s'.heap[i], home')
    {
      assert Stored(i, s.heap[i], home);
    }
  }

  lemma RehomeLocated(s: State, t: Tid, rt: RtId, s': State, home: Homes, home': Homes)
    requires Housed(s, home) && Moves(s, t, rt, s', home, home')
    requires forall d :: d in home' && (d !in home || home[d] == InHand(t) || OwnedBy(home[d], rt)) ==> Located(s', d, home'[d])
    ensures forall d :: d in home' ==> Located(s', d, home'[d])
  {
    forall d | d in home'
      ensures Located(s', d, home'[d])
    {
      if d in home {
        assert Located(s, d, home[d]);
      }
    }
  }

  lemma RehomeThreads(s: State, t: Tid, rt: RtId, s': State, home: Homes, home': Homes)
    requires Housed(s, home) && Moves(s, t, rt, s', home, home')
    requires Carried(t, s'.pcs[t], home') && Backed(s'.heap, s'.pcs[t], home') && Relied(s, t, rt, s', home, home')
    ensures forall u :: u in s'.pcs ==> Carried(u, s'.pcs[u], home') && Backed(s'.heap, s'.pcs[u], home')
  {
    forall u | u in s'.pcs
      ensures Carried(u, s'.pcs[u], home') && Backed(s'.heap, s'.pcs[u], home')
    {
      if u != t {
        assert Carried(u, s.pcs[u], home) && Backed(s.heap, s.pcs[u], home);
      }
    }
  }

  /** The runtime keeps what it had for its other active operations, if any, unless it is closed. */
  ghost predicate Relied(s: State, t: Tid, rt: RtId, s': State, home: Homes, home': Homes)
    requires rt < |s.heap| && rt < |s'.heap|
  {
    && (s.heap[rt].closed ==> s'.heap[rt].closed)
    && (s'.heap[rt].closed || NobodyElse(s, t, rt) ||
        forall d :: d in home && OwnedBy(home[d], rt) ==> d in home' && OwnedBy(home'[d], rt))
  }

  /** No other thread has an active operation on the runtime. */
  ghost predicate NobodyElse(s: State, t: Tid, rt: RtId) {
    forall u :: u in s.pcs && u != t && s.pcs[u].OpActive? ==> s.pcs[u].agent.rt != rt
  }

  /** A live driver session has not been closed, so the branch of sessionFor that would
      replace a closed one, and lose it, is never taken. */
  lemma LiveIsOpen(s: State, home: Homes, rt: RtId, k: string)
    requires Housed(s, home) && rt < |s.heap| && k in s.heap[rt].sessions
    ensures s.heap[rt].sessions[k] !in s.shut
  {
    assert Stored(rt, s.heap[rt], home);
  }

  /** sessionFor creates a driver session and puts it into the live map. */
  lemma CreateKeeps(s: State, t: Tid, rt: RtId, k: string, s': State, home: Homes)
    requires Housed(s, home) && t in s.pcs && rt < |s.heap| && k !in s.heap[rt].sessions && !s.heap[rt].closed
    requires t in s'.pcs && Hand(s'.pcs[t]) == Hand(s.pcs[t]) && SameOrMore(s.pcs[t], s'.pcs[t], rt, s.created)
    requires s' == Go(Put(s, rt, s.heap[rt].(sessions := s.heap[rt].sessions[k := s.created])), t, s'.pcs[t]).(created := s.created + 1)
    ensures Housed(s', home[s.created := InLive(rt, k)])
  {
    var home' := home[s.created := InLive(rt, k)];
    assert Carried(t, s.pcs[t], home) && Backed(s.heap, s.pcs[t], home);
    CreatedStored(s, rt, k, home);
    forall d | d in home && (home[d] == InHand(t) || OwnedBy(home[d], rt))
      ensures Located(s', d, home'[d])
    {
      assert Located(s, d, home[d]);
    }
    Rehome(s, t, rt, s', home, home');
  }

  /** sessionFor returns the live session, or fails. */
  lemma ReuseKeeps(s: State, t: Tid, s': State, home: Homes)
    requires Housed(s, home) && t in s.pcs && t in s'.pcs && s' == Go(s, t, s'.pcs[t])
    requires Hand(s'.pcs[t]) == Hand(s.pcs[t]) && s.pcs[t].OpActive? == s'.pcs[t].OpActive?
    requires s'.pcs[t].OpActive? ==> s'.pcs[t].hand == [] && Backed(s.heap, s'.pcs[t], home)
    ensures Housed(s', home)
  {
    forall d | d in home
      ensures Located(s', d, home[d])
    {
      assert Located(s, d, home[d]);
    }
    forall u | u in s'.pcs
      ensures Carried(u, s'.pcs[u], home) && Backed(s'.heap, s'.pcs[u], home)
    {
      assert Carried(u, s.pcs[u], home) && Backed(s.heap, s.pcs[u], home);
    }
  }

  /** An active operation obtains at most driver `d` of its runtime `rt`. */
  predicate SameOrMore(pc: Pc, pc': Pc, rt: RtId, d: Driver) {
    pc'.OpActive? == pc.OpActive? &&
    (pc'.OpActive? ==> pc'.agent == pc.agent && pc.agent.rt == rt && pc'.hand == pc.hand && pc'.obtained <= pc.obtained + {d})
  }

  lemma UseKeeps(s: State, t: Tid, keyspace: string, ok: bool, home: Homes) returns (home': Homes)
    requires Housed(s, home) && InnerEnabled(s, t, Use(keyspace, ok))
    ensures Housed(InnerNext(s, t, Use(keyspace, ok)), home')
  {
    var rt, k := RuntimeOf(s.pcs[t]), Trim(keyspace);
    var s' := InnerNext(s, t, Use(keyspace, ok));
    if k in s.heap[rt].sessions {
      LiveIsOpen(s, home, rt, k);
    }
    if Creates(s.heap[rt], keyspace, s.shut, Offer(ok, s.created)) {
      home' := home[s.created := InLive(rt, k)];
      CreateKeeps(s, t, rt, k, s', home);
    } else {
      home' := home;
      assert s.heap[rt := s.heap[rt]] == s.heap;
      assert Stored(rt, s.heap[rt], home) && Carried(t, s.pcs[t], home) && Backed(s.heap, s.pcs[t], home);
      ReuseKeeps(s, t, s', home);
    }
  }

  lemma CreatedStored(s: State, rt: RtId, k: string, home: Homes)
    requires Housed(s, home) && rt < |s.heap| && k !in s.heap[rt].sessions && !s.heap[rt].closed
    ensures Stored(rt, s.heap[rt].(sessions := s.heap[rt].sessions[k := s.created]), home[s.created := InLive(rt, k)])
  {
    assert Stored(rt, s.heap[rt], home);
  }

  /** The metadata session goes to the retired list while an operation is active. */
  lemma RetireKeeps(s: State, t: Tid, rt: RtId, s': State, home: Homes)
    requires Housed(s, home) && t in s.pcs && s.pcs[t].OpActive? && s.pcs[t].agent.rt == rt < |s.heap|
    requires "" in s.heap[rt].sessions
    requires s' == Go(Put(s, rt, s.heap[rt].(sessions := s.heap[rt].sessions - {""},
                                             retired := s.heap[rt].retired + [s.heap[rt].sessions[""]])), t, s.pcs[t])
    ensures Housed(s', home[s.heap[rt].sessions[""] := InRetired(rt)])
  {
    var d0 := s.heap[rt].sessions[""];
    var home' := home[d0 := InRetired(rt)];
    assert Stored(rt, s.heap[rt], home) && Carried(t, s.pcs[t], home) && Backed(s.heap, s.pcs[t], home);
    RetiredStored(rt, s.heap[rt], home);
    forall d | d in home && (home[d] == InHand(t) || OwnedBy(home[d], rt))
      ensures Located(s', d, home'[d])
    {
      assert Located(s, d, home[d]);
    }
    Rehome(s, t, rt, s', home, home');
  }

  lemma RetiredStored(rt: RtId, r: Runtime, home: Homes)
    requires Stored(rt, r, home) && "" in r.sessions
    ensures Stored(rt, r.(sessions := r.sessions - {""}, retired := r.retired + [r.sessions[""]]),
                   home[r.sessions[""] := InRetired(rt)])
  {
    assert r.sessions[""] !in r.retired;
  }

  lemma InvalidateKeeps(s: State, t: Tid, home: Homes) returns (home': Homes)
    requires Housed(s, home) && Permits(s) && InnerEnabled(s, t, OpInvalidate)
    ensures Housed(InnerNext(s, t, OpInvalidate), home')
  {
    var rt := s.pcs[t].agent.rt;
    ActiveAtLeastOne(s, t);
    if "" in s.heap[rt].sessions {
      home' := home[s.heap[rt].sessions[""] := InRetired(rt)];
      RetireKeeps(s, t, rt, InnerNext(s, t, OpInvalidate), home);
    } else {
      home' := home;
      StillKeeps(s, t, InnerNext(s, t, OpInvalidate), home);
    }
  }

  /** An operation that is under way is counted. */
  lemma ActiveAtLeastOne(s: State, t: Tid)
    requires Permits(s) && t in s.pcs && s.pcs[t].OpActive?
    ensures s.pcs[t].agent.rt < |s.heap| && s.heap[s.pcs[t].agent.rt].active >= 1
  {
    var rt := s.pcs[t].agent.rt;
    assert Counted(s, rt);
    assert Level(s.heap[rt], Active) == Count(s.pcs, Active, rt);
    L.TallyZero(Holdings(s.pcs, Active), rt);
    assert t in Holdings(s.pcs, Active);
  }

  /** The operation that brings activeOperations to zero is the only one on its runtime. */
  lemma LastActive(s: State, t: Tid)
    requires Permits(s) && t in s.pcs && s.pcs[t].OpActive? && s.pcs[t].agent.rt < |s.heap|
    requires s.heap[s.pcs[t].agent.rt].active == 1
    ensures NobodyElse(s, t, s.pcs[t].agent.rt)
  {
    var rt := s.pcs[t].agent.rt;
    assert Counted(s, rt);
    assert Level(s.heap[rt], Active) == Count(s.pcs, Active, rt);
    var m := Holdings(s.pcs, Active);
    L.TallyDrop(m, t, rt);
    L.TallyZero(m - {t}, rt);
    forall u | u in s.pcs && u != t && s.pcs[u].OpActive?
      ensures s.pcs[u].agent.rt != rt
    {
      assert u in m - {t} && (m - {t})[u] == s.pcs[u].agent.rt;
    }
  }

  /** The assignment after a thread took over the retired list, or everything. */
  function HandOver(home: Homes, rt: RtId, t: Tid, live: bool): Homes {
    map d | d in home :: if OwnedBy(home[d], rt) && (live || home[d].InRetired?) then InHand(t) else home[d]
  }

  lemma EndKeeps(s: State, t: Tid, home: Homes) returns (home': Homes)
    requires Housed(s, home) && Permits(s) && InnerEnabled(s, t, OpEnd)
    ensures Housed(InnerNext(s, t, OpEnd), home')
  {
    var pc := s.pcs[t];
    var rt := pc.agent.rt;
    var (r, hand) := End(s.heap[rt]);
    var s' := Go(Put(s, rt, r), t, OpReleased(pc.agent, pc.metadata, pc.guarded, hand));
    assert s' == InnerNext(s, t, OpEnd);
    EmptyHand(s, t, home);
    if s.heap[rt].active == 1 {
      LastActive(s, t);
      home' := HandOver(home, rt, t, false);
      EndLast(s, t, home);
    } else {
      home' := home;
      EndMore(s, t, home);
    }
  }

  /** The last active operation takes the retired list over. */
  lemma EndLast(s: State, t: Tid, home: Homes)
    requires Housed(s, home) && t in s.pcs && s.pcs[t].OpActive? && s.pcs[t].hand == [] && s.pcs[t].agent.rt < |s.heap|
    requires s.heap[s.pcs[t].agent.rt].active == 1 && NobodyElse(s, t, s.pcs[t].agent.rt)
    requires forall d :: d in home ==> home[d] != InHand(t)
    ensures var pc := s.pcs[t];
      var (r, hand) := End(s.heap[pc.agent.rt]);
      Housed(Go(Put(s, pc.agent.rt, r), t, OpReleased(pc.agent, pc.metadata, pc.guarded, hand)),
             HandOver(home, pc.agent.rt, t, false))
  {
    var pc := s.pcs[t];
    var rt := pc.agent.rt;
    var (r, hand) := End(s.heap[rt]);
    var s' := Go(Put(s, rt, r), t, OpReleased(pc.agent, pc.metadata, pc.guarded, hand));
    var home' := HandOver(home, rt, t, false);
    assert Stored(rt, s.heap[rt], home) && Carried(t, pc, home);
    forall d | d in home && OwnedBy(home[d], rt)
      ensures Located(s', d, home'[d])
    {
      assert Located(s, d, home[d]);
    }
    Rehome(s, t, rt, s', home, home');
  }

  /** Any other leaves everything where it is. */
  lemma EndMore(s: State, t: Tid, home: Homes)
    requires Housed(s, home) && t in s.pcs && s.pcs[t].OpActive? && s.pcs[t].hand == [] && s.pcs[t].agent.rt < |s.heap|
    requires s.heap[s.pcs[t].agent.rt].active != 1
    ensures var pc := s.pcs[t];
      var (r, hand) := End(s.heap[pc.agent.rt]);
      Housed(Go(Put(s, pc.agent.rt, r), t, OpReleased(pc.agent, pc.metadata, pc.guarded, hand)), home)
  {
    var pc := s.pcs[t];
    var (r, hand) := End(s.heap[pc.agent.rt]);
    StillKeeps(s, t, Go(Put(s, pc.agent.rt, r), t, OpReleased(pc.agent, pc.metadata, pc.guarded, hand)), home);
  }

  lemma EmptyHand(s: State, t: Tid, home: Homes)
    requires Housed(s, home) && t in s.pcs && Hand(s.pcs[t]) == []
    ensures forall d :: d in home ==> home[d] != InHand(t)
  {
    forall d | d in home
      ensures home[d] != InHand(t)
    {
      assert Located(s, d, home[d]);
    }
  }

  lemma CloseRuntimeKeeps(s: State, t: Tid, order: seq<string>, home: Homes) returns (home': Homes)
    requires Housed(s, home) && InnerEnabled(s, t, CloseRuntime(order))
    ensures Housed(InnerNext(s, t, CloseRuntime(order)), home')
  {
    var rt := s.pcs[t].rt;
    var s' := InnerNext(s, t, CloseRuntime(order));
    home' := HandOver(home, rt, t, true);
    assert Stored(rt, s.heap[rt], home);
    TakenOnce(rt, s.heap[rt], order, home);
    forall d | d in home && OwnedBy(home[d], rt)
      ensures Located(s', d, home'[d])
    {
      assert Located(s, d, home[d]);
      TakenAll(s.heap[rt], order, d);
    }
    forall d | d in home
      ensures home[d] != InHand(t)
    {
      assert Located(s, d, home[d]);
    }
    Rehome(s, t, rt, s', home, home');
  }

  /** close hands over each driver session once. */
  lemma TakenOnce(rt: RtId, r: Runtime, order: seq<string>, home: Homes)
    requires Stored(rt, r, home) && Enumerates(order, r.sessions)
    ensures NoDuplicates(Images(order, r.sessions) + r.retired)
    ensures forall d :: d in Images(order, r.sessions) + r.retired ==> d in home && OwnedBy(home[d], rt)
  {
    var live := Images(order, r.sessions);
    assert forall i :: 0 <= i < |live| ==> home[live[i]] == InLive(rt, order[i]);
    assert forall i :: 0 <= i < |r.retired| ==> r.retired[i] in r.retired;
  }

  /** close leaves no driver session of the runtime behind. */
  lemma TakenAll(r: Runtime, order: seq<string>, d: Driver)
    requires Enumerates(order, r.sessions)
    requires d in r.retired || exists k :: k in r.sessions && r.sessions[k] == d
    ensures d in Images(order, r.sessions) + r.retired
  {
    if d !in r.retired {
      var k :| k in r.sessions && r.sessions[k] == d;
      var i :| 0 <= i < |order| && order[i] == k;
      assert Images(order, r.sessions)[i] == d;
    }
  }

  lemma CloseOneKeeps(s: State, t: Tid, home: Homes) returns (home': Homes)
    requires Housed(s, home) && t in s.pcs && ClosesDrivers(s.pcs[t])
    ensures Hand(s.pcs[t])[0] !in s.shut
    ensures Housed(CloseOne(s, t), home')
  {
    var pc, hand := s.pcs[t], Hand(s.pcs[t]);
    var s' := CloseOne(s, t);
    assert Carried(t, pc, home) && Backed(s.heap, pc, home);
    assert hand[0] in hand;
    home' := home[hand[0] := Shut];
    assert Hand(s'.pcs[t]) == hand[1..];
    forall d | d in home'
      ensures Located(s', d, home'[d])
    {
      assert Located(s, d, home[d]);
      if home[d] == InHand(t) && d != hand[0] {
        assert d in hand[1..];
      }
    }
    forall i | 0 <= i < |s'.heap|
      ensures Stored(i, s'.heap[i], home')
    {
      assert Stored(i, s.heap[i], home);
    }
    forall u | u in s'.pcs
      ensures Carried(u, s'.pcs[u], home') && Backed(s'.heap, s'.pcs[u], home')
    {
      assert Carried(u, s.pcs[u], home) && Backed(s.heap, s.pcs[u], home);
    }
  }

  // ---- every step ----

  lemma StepKeepsHomes(s: State, t: Tid, ev: Event, home: Homes) returns (home': Homes)
    requires Housed(s, home) && Permits(s) && Enabled(s, t, ev)
    ensures Housed(Next(s, t, ev), home')
  {
    home' := home;
    if Local(ev) {
      LocalStill(s, t, ev, home);
    } else if Inner(ev) {
      home' := InnerKeepsHomes(s, t, ev, home);
    } else {
      home' := OuterKeepsHomes(s, t, ev, home);
    }
  }

  lemma InnerKeepsHomes(s: State, t: Tid, ev: Event, home: Homes) returns (home': Homes)
    requires Housed(s, home) && Permits(s) && InnerEnabled(s, t, ev)
    ensures Housed(InnerNext(s, t, ev), home')
  {
    home' := home;
    if PermitEvent(ev) {
      PermitStepKeeps(s, t, ev, home);
    } else {
      home' := TransferKeeps(s, t, ev, home);
    }
  }

  lemma OuterKeepsHomes(s: State, t: Tid, ev: Event, home: Homes) returns (home': Homes)
    requires Housed(s, home) && Enabled(s, t, ev) && !Inner(ev) && !Local(ev)
    ensures Housed(Next(s, t, ev), home')
  {
    home' := home;
    if ev.CloseDriver? {
      home' := CloseOneKeeps(s, t, home);
    } else {
      OuterKeeps(s, t, ev, home);
    }
  }

  /** The inner events that may move driver sessions. */
  lemma TransferKeeps(s: State, t: Tid, ev: Event, home: Homes) returns (home': Homes)
    requires Housed(s, home) && Permits(s) && InnerEnabled(s, t, ev) && !PermitEvent(ev)
    ensures Housed(InnerNext(s, t, ev), home')
  {
    match ev
    case Use(keyspace, ok) => home' := UseKeeps(s, t, keyspace, ok, home);
    case OpInvalidate => home' := InvalidateKeeps(s, t, home);
    case OpEnd => home' := EndKeeps(s, t, home);
    case CloseRuntime(order) => home' := CloseRuntimeKeeps(s, t, order, home);
  }

  lemma LocalStill(s: State, t: Tid, ev: Event, home: Homes)
    requires Housed(s, home) && t in s.pcs && Local(ev) && LocalReady(s.registered, s.pcs[t], ev)
    ensures Housed(Go(s, t, LocalStep(s.registered, s.pcs[t], ev)), home)
  {
    LocalCargo(s.registered, s.pcs[t], ev);
    StillKeeps(s, t, Go(s, t, LocalStep(s.registered, s.pcs[t], ev)), home);
  }

  lemma LocalCargo(registered: map<string, Agent>, pc: Pc, ev: Event)
    requires Local(ev) && LocalReady(registered, pc, ev)
    ensures SameCargo(pc, LocalStep(registered, pc, ev)) && !LocalStep(registered, pc, ev).OpActive?
  {
  }

  predicate PermitEvent(ev: Event) {
    ev.OpTakeMetadata? || ev.OpTakePermit? || ev.OpTimeout? || ev.OpBegin? || ev.OpReturnPermit? || ev.OpReturnMetadata?
  }

  lemma PermitStepFrame(pc: Pc, r: Runtime, ev: Event, shut: set<Driver>, spare: Driver)
    requires PermitEvent(ev) && InnerReady(pc, r, ev)
    ensures var (pc', r') := InnerStep(pc, r, ev, shut, spare);
            SameStore(r, r') && SameCargo(pc, pc') && (pc'.OpActive? ==> HasRuntime(pc) && pc'.agent.rt == RuntimeOf(pc))
  {
  }

  lemma PermitStepKeeps(s: State, t: Tid, ev: Event, home: Homes)
    requires Housed(s, home) && InnerEnabled(s, t, ev) && PermitEvent(ev)
    ensures Housed(InnerNext(s, t, ev), home)
  {
    PermitStepFrame(s.pcs[t], s.heap[RuntimeOf(s.pcs[t])], ev, s.shut, s.created);
    StillKeeps(s, t, InnerNext(s, t, ev), home);
  }

  lemma OuterKeeps(s: State, t: Tid, ev: Event, home: Homes)
    requires Housed(s, home) && Enabled(s, t, ev) && !Inner(ev) && !Local(ev) && !ev.CloseDriver?
    ensures Housed(Next(s, t, ev), home)
  {
    match ev
    case OpenAcquire(pool, metadata) => AcquireStill(s, t, pool, metadata, home);
    case OpenRegister => StillKeeps(s, t, Register(s, t), home);
    case Release => ReleaseStill(s, t, home);
    case CloseLookup(name) => StillKeeps(s, t, Deregister(s, t, name), home);
    case TestCreate(key, pool, metadata) => StillKeeps(s, t, StartTest(s, t, Fresh(key, pool, metadata)), home);
  }

  lemma AcquireStill(s: State, t: Tid, pool: Option<int>, metadata: Option<int>, home: Homes)
    requires Housed(s, home) && t in s.pcs && s.pcs[t].OpenChecked?
    requires s.pcs[t].key in s.runtimes ==> s.runtimes[s.pcs[t].key] < |s.heap|
    ensures Housed(Acquire(s, t, s.pcs[t].name, s.pcs[t].key, pool, metadata), home)
  {
    StillKeeps(s, t, Acquire(s, t, s.pcs[t].name, s.pcs[t].key, pool, metadata), home);
  }

  lemma ReleaseStill(s: State, t: Tid, home: Homes)
    requires Housed(s, home) && t in s.pcs && s.pcs[t].Releasing?
    requires s.pcs[t].key in s.runtimes ==> s.runtimes[s.pcs[t].key] < |s.heap|
    ensures Housed(ReleaseRuntime(s, t, s.pcs[t].key), home)
  {
    StillKeeps(s, t, ReleaseRuntime(s, t, s.pcs[t].key), home);
  }

  lemma InitHomes(s: State)
    requires Init(s)
    ensures Housed(s, map[])
  {
  }
}
