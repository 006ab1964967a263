/** One shared Cassandra connection runtime (agents/drivers/cassandra-go/runtime.go).

    A `Runtime` value is what `connectionRuntime.mu` and the two permit channels
    guard.  Every function below is one block the source runs under the mutex, or
    one channel operation; `ConnectionRuntime` is the object that performs them in
    place.  Driver sessions are opaque identities. */
module CassandraRuntime {
  import opened Common

  type Driver = nat

  const DEFAULT_POOL_SIZE := 32
  const DEFAULT_METADATA_LIMIT := 8
  const MAX_POOL_SIZE := 128

  datatype Runtime = Runtime(
    key: string,                     // digest of the connection parameters it was built from
    sessions: map<string, Driver>,   // live driver session of each keyspace
    retired: seq<Driver>,            // retired, waiting for the last active operation
    permits: int,                    // occupancy of the general permit channel
    metadataPermits: int,            // occupancy of the metadata permit channel
    poolSize: int,
    metadataLimit: int,
    active: int,                     // activeOperations
    references: int,
    closed: bool)

  /** The pool size is the environment's number when it parses into 1..128. */
  function PoolSize(parsed: Option<int>): (n: int)
    ensures 1 <= n <= 128
    ensures parsed.Some? && 1 <= parsed.value <= 128 ==> n == parsed.value
    ensures parsed.None? || parsed.value < 1 || parsed.value > 128 ==> n == 32
  {
    if parsed.Some? && 1 <= parsed.value <= MAX_POOL_SIZE then parsed.value else DEFAULT_POOL_SIZE
  }

  /** The metadata limit never exceeds the pool it is carved from. */
  function MetadataLimit(poolSize: int, parsed: Option<int>): (n: int)
    requires 1 <= poolSize
    ensures 1 <= n <= poolSize
    ensures parsed.Some? && 1 <= parsed.value <= poolSize ==> n == parsed.value
    ensures parsed.None? || parsed.value < 1 || parsed.value > poolSize ==> n == 8 || (n == poolSize && poolSize < 8)
  {
    if parsed.Some? && 1 <= parsed.value <= poolSize then parsed.value
    else if poolSize < DEFAULT_METADATA_LIMIT then poolSize else DEFAULT_METADATA_LIMIT
  }

  function NewRuntime(key: string, poolSize: int, metadataLimit: int): Runtime {
    Runtime(key, map[], [], 0, 0, poolSize, metadataLimit, 0, 0, false)
  }

  predicate IsSpace(c: char) {
    c in {' ', '\t', '\n', '\r'} || '\U{0B}' <= c <= '\U{0C}' || c == '\U{85}' || c == '\U{A0}' || c == '\U{1680}' ||
    '\U{2000}' <= c <= '\U{200A}' || '\U{2028}' <= c <= '\U{2029}' || c in {'\U{202F}', '\U{205F}', '\U{3000}'}
  }

  /** strings.TrimSpace */
  function Trim(s: string): string {
    if s != "" && IsSpace(s[0]) then Trim(s[1..])
    else if s != "" && IsSpace(s[|s| - 1]) then Trim(s[..|s| - 1])
    else s
  }

  /** The white space of Unicode. */
  const SPACES: set<int> := {
    0x09, 0x0A, 0x0B, 0x0C, 0x0D, 0x20, 0x85, 0xA0, 0x1680, 0x2000, 0x2001, 0x2002, 0x2003, 0x2004, 0x2005, 0x2006, 0x2007,
    0x2008, 0x2009, 0x200A, 0x2028, 0x2029, 0x202F, 0x205F, 0x3000}

  lemma SpaceIs(c: char)
    ensures IsSpace(c) <==> c as int in SPACES
  {
  }

  predicate Blank(s: string, from: nat, to: nat) {
    forall p :: from <= p < to && p < |s| ==> IsSpace(s[p])
  }

  /** Only white space is cut off, and none is left at the ends. */
  predicate TrimsAt(s: string, t: string, i: nat, j: nat) {
    && i <= j <= |s| && t == s[i..j] && Blank(s, 0, i) && Blank(s, j, |s|)
    && (i < j ==> !IsSpace(s[i]) && !IsSpace(s[j - 1]))
  }

  ghost predicate Trims(s: string, t: string) {
    exists i: nat, j: nat :: TrimsAt(s, t, i, j)
  }

  lemma TrimsAfterFirst(s: string, t: string, i: nat, j: nat)
    requires s != "" && IsSpace(s[0]) && TrimsAt(s[1..], t, i, j)
    ensures TrimsAt(s, t, i + 1, j + 1)
  {
    assert s[1..][i..j] == s[i + 1..j + 1];
    assert forall p :: 1 <= p < |s| ==> s[p] == s[1..][p - 1];
  }

  lemma TrimsBeforeLast(s: string, t: string, i: nat, j: nat)
    requires s != "" && IsSpace(s[|s| - 1]) && TrimsAt(s[..|s| - 1], t, i, j)
    ensures TrimsAt(s, t, i, j)
  {
    assert s[..|s| - 1][i..j] == s[i..j];
    assert forall p :: 0 <= p < |s| - 1 ==> s[p] == s[..|s| - 1][p];
  }

  lemma {:induction false} TrimIs(s: string) returns (i: nat, j: nat)
    ensures TrimsAt(s, Trim(s), i, j)
    decreases |s|
  {
    if s != "" && IsSpace(s[0]) {
      var k, l := TrimIs(s[1..]);
      TrimsAfterFirst(s, Trim(s[1..]), k, l);
      i, j := k + 1, l + 1;
    } else if s != "" && IsSpace(s[|s| - 1]) {
      i, j := TrimIs(s[..|s| - 1]);
      TrimsBeforeLast(s, Trim(s[..|s| - 1]), i, j);
    } else {
      i, j := 0, |s|;
      assert s[0..|s|] == s;
    }
  }

  /** Where white space ends is the same for both. */
  lemma SameCut(s: string, t: string, i: nat, j: nat, u: string, k: nat, l: nat)
    requires TrimsAt(s, t, i, j) && TrimsAt(s, u, k, l) && i < j
    ensures u == t
  {
    assert k <= i < j <= l;
  }

  /** Trimming is the one way to do so. */
  lemma TrimIff(s: string, t: string)
    ensures Trims(s, t) <==> t == Trim(s)
  {
    var k, l := TrimIs(s);
    if Trims(s, t) {
      var i: nat, j: nat :| TrimsAt(s, t, i, j);
      if i < j {
        SameCut(s, t, i, j, Trim(s), k, l);
      } else if k < l {
        SameCut(s, Trim(s), k, l, t, i, j);
      }
    }
  }

  // ---- blocks run under connectionRuntime.mu ----

  /** The cached session can be handed out: it is present and nobody closed it. */
  predicate Cached(r: Runtime, keyspace: string, shut: set<Driver>) {
    Trim(keyspace) in r.sessions && r.sessions[Trim(keyspace)] !in shut
  }

  /** sessionFor must create a session and creation succeeds. */
  predicate Creates(r: Runtime, keyspace: string, shut: set<Driver>, created: Option<Driver>) {
    !r.closed && !Cached(r, keyspace, shut) && created.Some?
  }

  /** sessionFor under the lock: `shut` are the driver sessions whose Closed() is true, `created` is
      the outcome of CreateSession. */
  function Obtain(r: Runtime, keyspace: string, shut: set<Driver>, created: Option<Driver>): (Runtime, Option<Driver>) {
    if r.closed then (r, None)
    else if Cached(r, keyspace, shut) then (r, Some(r.sessions[Trim(keyspace)]))
    else if created.None? then (r, None)
    else (r.(sessions := r.sessions[Trim(keyspace) := created.value]), created)
  }

  /** invalidateMetadataSession: the second component is closed by the caller. */
  function Invalidate(r: Runtime): (Runtime, seq<Driver>) {
    if "" !in r.sessions then (r, [])
    else
      var session := r.sessions[""];
      var live := r.(sessions := r.sessions - {""});
      if r.active == 0 then (live, [session]) else (live.(retired := r.retired + [session]), [])
  }

  /** acquire, once the general permit is in the channel. */
  function Begin(r: Runtime): Runtime {
    r.(active := r.active + 1)
  }

  /** The locked part of the release closure; the caller closes the second component. */
  function End(r: Runtime): (Runtime, seq<Driver>) {
    var ended := r.(active := r.active - 1);
    if ended.active == 0 && |r.retired| > 0 then (ended.(retired := []), r.retired) else (ended, [])
  }

  /** `order` enumerates the keys of `m`, in the arbitrary order of a map range. */
  ghost predicate Enumerates(order: seq<string>, m: map<string, Driver>) {
    NoDuplicates(order) && (forall k :: k in order <==> k in m)
  }

  function Images(order: seq<string>, m: map<string, Driver>): (ds: seq<Driver>)
    requires forall k :: k in order ==> k in m
    ensures |ds| == |order| && forall i :: 0 <= i < |ds| ==> ds[i] == m[order[i]]
  {
    seq(|order|, i requires 0 <= i < |order| => m[order[i]])
  }

  /** close: everything the runtime still owns is handed to the caller, once. */
  function Close(r: Runtime, order: seq<string>): (Runtime, seq<Driver>)
    requires forall k :: k in order ==> k in r.sessions
  {
    if r.closed then (r, [])
    else (r.(closed := true, sessions := map[], retired := []), Images(order, r.sessions) + r.retired)
  }

  // ---- no driver session is forgotten, and none is closed too early ----

  /** The driver session is in the runtime, live or retired. */
  predicate Owns(r: Runtime, d: Driver) {
    d in r.sessions.Values || d in r.retired
  }

  /** What leaves the runtime is handed over to be closed, and nothing else is. */
  ghost predicate HandsOver(r: Runtime, r': Runtime, hand: seq<Driver>) {
    forall d :: Owns(r, d) <==> Owns(r', d) || d in hand
  }

  /** The metadata session is handed over at once if no operation is active, and is kept for the last one otherwise. */
  lemma InvalidateHandsOver(r: Runtime)
    ensures var (r', hand) := Invalidate(r);
      && HandsOver(r, r', hand) && "" !in r'.sessions && (forall k :: k in r.sessions && k != "" ==> k in r'.sessions)
      && (r.active == 0 ==> r'.retired == r.retired) && (r.active != 0 ==> hand == [])
  {
    var (r', hand) := Invalidate(r);
    forall d
      ensures Owns(r, d) <==> Owns(r', d) || d in hand
    {
      if d in r.sessions.Values {
        var k :| k in r.sessions && r.sessions[k] == d;
        assert k != "" ==> k in r'.sessions && r'.sessions[k] == d;
      }
    }
  }

  /** The last operation takes over the whole retired list, and no other takes anything. */
  lemma EndHandsOver(r: Runtime)
    ensures var (r', hand) := End(r);
      && HandsOver(r, r', hand) && r'.sessions == r.sessions && r'.active == r.active - 1
      && (r'.active == 0 ==> r'.retired == [] && hand == r.retired) && (r'.active != 0 ==> hand == [])
  {
  }

  /** Closing leaves nothing behind. */
  lemma CloseHandsOver(r: Runtime, order: seq<string>)
    requires Enumerates(order, r.sessions) && (r.closed ==> r.sessions == map[] && r.retired == [])
    ensures var (r', hand) := Close(r, order);
      HandsOver(r, r', hand) && r'.closed && forall d :: !Owns(r', d)
  {
    var (r', hand) := Close(r, order);
    forall d | d in r.sessions.Values
      ensures d in hand
    {
      var k :| k in r.sessions && r.sessions[k] == d;
      var i :| 0 <= i < |order| && order[i] == k;
      assert hand[i] == d;
    }
  }

  /** The connectionRuntime object. */
  class ConnectionRuntime {
    const key: string
    var sessions: map<string, Driver>
    var retired: seq<Driver>
    var permits: int
    var metadataPermits: int
    const poolSize: int
    const metadataLimit: int
    var active: int
    var references: int
    var closed: bool

    function View(): Runtime
      reads this
    {
      Runtime(key, sessions, retired, permits, metadataPermits, poolSize, metadataLimit, active, references, closed)
    }

    constructor (key: string, pool: Option<int>, metadata: Option<int>)
      ensures View() == NewRuntime(key, PoolSize(pool), MetadataLimit(PoolSize(pool), metadata))
    {
      this.key := key;
      sessions, retired := map[], [];
      permits, metadataPermits := 0, 0;
      poolSize := PoolSize(pool);
      metadataLimit := MetadataLimit(PoolSize(pool), metadata);
      active, references, closed := 0, 0, false;
    }

    method SessionFor(keyspace: string, shut: set<Driver>, created: Option<Driver>) returns (session: Option<Driver>)
      modifies `sessions
      ensures (View(), session) == Obtain(old(View()), keyspace, shut, created)
      ensures forall key :: Trims(keyspace, key) && session.Some? ==> key in sessions && sessions[key] == session.value
      ensures forall key :: Trims(keyspace, key) && !closed ==>
        if key in old(sessions) && old(sessions)[key] !in shut
        then session == Some(old(sessions)[key]) && sessions == old(sessions)
        else session == created && sessions == if created.Some? then old(sessions)[key := created.value] else old(sessions)
      ensures closed ==> session.None? && sessions == old(sessions)
    {
      var trimmed := Trim(keyspace);
      forall key | Trims(keyspace, key)
        ensures key == trimmed
      {
        TrimIff(keyspace, key);
      }
      if closed {
        return None;
      }
      if trimmed in sessions && sessions[trimmed] !in shut {
        return Some(sessions[trimmed]);
      }
      if created.None? {
        return None;
      }
      sessions := sessions[trimmed := created.value];
      session := created;
    }

    method InvalidateMetadataSession() returns (toClose: seq<Driver>)
      modifies `sessions, `retired
      ensures (View(), toClose) == Invalidate(old(View()))
    {
      toClose := [];
      if "" in sessions {
        var session := sessions[""];
        sessions := sessions - {""};
        if active == 0 {
          toClose := [session];
        } else {
          retired := retired + [session];
        }
      }
    }

    /** acquire: either select may lose to the 30 second timer, and then everything
        taken so far is given back. */
    method Acquire(metadata: bool, metadataTimeout: bool, permitTimeout: bool) returns (acquired: bool)
      requires metadata && !metadataTimeout ==> metadataPermits < metadataLimit
      requires !permitTimeout ==> permits < poolSize
      modifies `permits, `metadataPermits, `active
      ensures acquired == !((metadata && metadataTimeout) || permitTimeout)
      ensures !acquired ==> View() == old(View())
      ensures acquired ==> View() == Begin(old(View())).(
        permits := old(permits) + 1,
        metadataPermits := old(metadataPermits) + if metadata then 1 else 0)
    {
      var metadataAcquired := false;
      if metadata {
        if metadataTimeout {
          return false;
        }
        metadataPermits := metadataPermits + 1;
        metadataAcquired := true;
      }
      if permitTimeout {
        if metadataAcquired {
          metadataPermits := metadataPermits - 1;
        }
        return false;
      }
      permits := permits + 1;
      active := active + 1;
      acquired := true;
    }

    /** The closure acquire returns; it undoes Acquire on every field but the retired list. */
    method Release(metadataAcquired: bool) returns (toClose: seq<Driver>)
      modifies `permits, `metadataPermits, `active, `retired
      ensures View() == End(old(View())).0.(
        permits := old(permits) - 1,
        metadataPermits := old(metadataPermits) - if metadataAcquired then 1 else 0)
      ensures toClose == End(old(View())).1
    {
      toClose := [];
      active := active - 1;
      if active == 0 && |retired| > 0 {
        toClose := retired;
        retired := [];
      }
      permits := permits - 1;
      if metadataAcquired {
        metadataPermits := metadataPermits - 1;
      }
    }

    method CloseAll() returns (toClose: seq<Driver>, ghost order: seq<string>)
      modifies `sessions, `retired, `closed
      ensures closed
      ensures !old(closed) ==> Enumerates(order, old(sessions))
      ensures forall k :: k in order ==> k in old(sessions)
      ensures (View(), toClose) == Close(old(View()), order)
    {
      toClose, order := [], [];
      if closed {
        return;
      }
      closed := true;
      var live, kept := sessions, retired;
      sessions, retired := map[], [];
      var left := live;
      while left != map[]
        invariant forall k :: k in live <==> k in left || k in order
        invariant forall k :: k in left ==> k !in order && left[k] == live[k]
        invariant NoDuplicates(order)
        invariant |toClose| == |order| && forall i :: 0 <= i < |order| ==> order[i] in live && toClose[i] == live[order[i]]
        decreases |left|
      {
        var k :| k in left;
        toClose, order := toClose + [left[k]], order + [k];
        left := left - {k};
      }
      assert toClose == Images(order, live);
      toClose := toClose + kept;
    }
  }
}
