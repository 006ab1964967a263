/** Which keyspace a driver session serves, in every interleaving: the one it was created for, as the driver
    sessions of a runtime are cached by trimmed keyspace. */
module CassandraKeyspaces {
  import opened Common
  import opened CassandraRuntime
  import opened CassandraAgent
  import opened CassandraSafety
  import opened CassandraOrigins
  import D = CassandraDrivers
  import W = CassandraWitness

  /** The driver session that a thread's use of a keyspace is given. */
  ghost function Handed(s: State, t: Tid, keyspace: string, ok: bool): Option<Driver>
    requires InnerEnabled(s, t, Use(keyspace, ok))
  {
    Obtain(s.heap[RuntimeOf(s.pcs[t])], keyspace, s.shut, Offer(ok, s.created)).1
  }

  /** Thread `t` is given driver session `d` for the keyspace, on runtime `rt`. */
  ghost predicate Gives(s: State, t: Tid, keyspace: string, ok: bool, rt: RtId, d: Driver) {
    InnerEnabled(s, t, Use(keyspace, ok)) && RuntimeOf(s.pcs[t]) == rt && Handed(s, t, keyspace, ok) == Some(d)
  }

  /** The two names are the same up to white space around them. */
  ghost predicate SameKeyspace(a: string, b: string) {
    exists t :: Trims(a, t) && Trims(b, t)
  }

  lemma SameKeyspaceIff(a: string, b: string)
    ensures SameKeyspace(a, b) <==> Trim(a) == Trim(b)
  {
    TrimIff(a, Trim(a));
    TrimIff(b, Trim(a));
    if SameKeyspace(a, b) {
      var t :| Trims(a, t) && Trims(b, t);
      TrimIff(a, t);
      TrimIff(b, t);
    }
  }

  /** What is handed out was created for that runtime and keyspace, now or before. */
  lemma GivenFor(s: State, t: Tid, keyspace: string, ok: bool, rt: RtId, d: Driver, born: Origins)
    requires Bred(s, born) && Gives(s, t, keyspace, ok, rt, d)
    ensures if d == s.created then d !in born else For(born, d, rt, Trim(keyspace))
    ensures d in InnerNext(s, t, Use(keyspace, ok)).heap[rt].sessions.Values
    ensures d <= s.created
  {
    assert StoreFrom(rt, s.heap[rt], born);
    assert Trim(keyspace) in InnerNext(s, t, Use(keyspace, ok)).heap[rt].sessions;
  }

  /** After it was handed out, the origins know it. */
  lemma KnownAfter(s: State, t: Tid, keyspace: string, ok: bool, rt: RtId, d: Driver, born: Origins) returns (born': Origins)
    requires Bred(s, born) && Gives(s, t, keyspace, ok, rt, d)
    ensures Bred(InnerNext(s, t, Use(keyspace, ok)), born') && For(born', d, rt, Trim(keyspace))
  {
    GivenFor(s, t, keyspace, ok, rt, d, born);
    born' := InnerKeepsBred(s, t, Use(keyspace, ok), born);
    var r := InnerNext(s, t, Use(keyspace, ok)).heap[rt];
    assert StoreFrom(rt, r, born');
    assert r.sessions[Trim(keyspace)] == d;
  }

  /** In every run: once a driver session was handed out for a keyspace of a runtime, it is handed out again only for
      that keyspace of that runtime, up to white space, and it is retired only if that is no keyspace. */
  lemma OneKeyspace(s: State, t: Tid, keyspace: string, ok: bool, rt: RtId, d: Driver, moves: seq<Move>)
    requires Reachable(s) && Gives(s, t, keyspace, ok, rt, d) && Schedule(InnerNext(s, t, Use(keyspace, ok)), moves)
    ensures var end := Run(InnerNext(s, t, Use(keyspace, ok)), moves);
      && (forall u, other, fine, rt' :: Gives(end, u, other, fine, rt', d) ==> rt' == rt && SameKeyspace(keyspace, other))
      && (forall i :: 0 <= i < |end.heap| && d in end.heap[i].retired ==> i == rt && Trims(keyspace, ""))
  {
    var born := ReachableBred(s);
    var known := KnownAfter(s, t, keyspace, ok, rt, d, born);
    var later := RunKeepsBred(InnerNext(s, t, Use(keyspace, ok)), moves, known);
    var end := Run(InnerNext(s, t, Use(keyspace, ok)), moves);
    forall u, other, fine, rt' | Gives(end, u, other, fine, rt', d)
      ensures rt' == rt && SameKeyspace(keyspace, other)
    {
      GivenFor(end, u, other, fine, rt', d, later);
      SameKeyspaceIff(keyspace, other);
    }
    forall i | 0 <= i < |end.heap| && d in end.heap[i].retired
      ensures i == rt && Trims(keyspace, "")
    {
      assert StoreFrom(i, end.heap[i], later);
      TrimIff(keyspace, "");
    }
  }

  /** In every run: while the driver session is live, its runtime hands it out exactly for its own keyspace. */
  lemma LiveServesItsKeyspace(
    s: State, t: Tid, keyspace: string, ok: bool, rt: RtId, d: Driver, moves: seq<Move>, u: Tid, other: string, fine: bool)
    requires Reachable(s) && Gives(s, t, keyspace, ok, rt, d) && Schedule(InnerNext(s, t, Use(keyspace, ok)), moves)
    requires var end := Run(InnerNext(s, t, Use(keyspace, ok)), moves);
      && InnerEnabled(end, u, Use(other, fine)) && RuntimeOf(end.pcs[u]) < |end.heap|
      && d in end.heap[RuntimeOf(end.pcs[u])].sessions.Values
    ensures var end := Run(InnerNext(s, t, Use(keyspace, ok)), moves);
      RuntimeOf(end.pcs[u]) == rt && (Gives(end, u, other, fine, rt, d) <==> SameKeyspace(keyspace, other))
  {
    var born := ReachableBred(s);
    var known := KnownAfter(s, t, keyspace, ok, rt, d, born);
    var later := RunKeepsBred(InnerNext(s, t, Use(keyspace, ok)), moves, known);
    var end := Run(InnerNext(s, t, Use(keyspace, ok)), moves);
    var r := end.heap[RuntimeOf(end.pcs[u])];
    var k :| k in r.sessions && r.sessions[k] == d;
    assert StoreFrom(RuntimeOf(end.pcs[u]), r, later);
    var _ := W.Then(s, t, Use(keyspace, ok));
    StaysReachable(InnerNext(s, t, Use(keyspace, ok)), moves);
    LiveIsUsable(end, RuntimeOf(end.pcs[u]), k);
    SameKeyspaceIff(keyspace, other);
    OneKeyspace(s, t, keyspace, ok, rt, d, moves);
  }

  lemma {:induction false} StaysReachable(s: State, moves: seq<Move>)
    requires Reachable(s) && Schedule(s, moves)
    ensures Reachable(Run(s, moves))
    decreases |moves|
  {
    if moves != [] {
      var next := W.Then(s, moves[0].t, moves[0].ev);
      StaysReachable(next, moves[1..]);
    }
  }

  /** A live driver session was not closed, and neither was its runtime. */
  lemma LiveIsUsable(s: State, rt: RtId, k: string)
    requires Reachable(s) && rt < |s.heap| && k in s.heap[rt].sessions
    ensures !s.heap[rt].closed && s.heap[rt].sessions[k] !in s.shut
  {
    ReachableInv(s);
    var home: D.Homes :| D.Housed(s, home);
    D.LiveIsOpen(s, home, rt, k);
    assert D.Stored(rt, s.heap[rt], home);
  }
}
