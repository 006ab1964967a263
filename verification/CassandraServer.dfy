/** runtimeServer as an object over shared connectionRuntime objects
    (agents/drivers/cassandra-go/main.go and runtime.go): the blocks that change its two
    maps, and the shutdown that runs alone once all requests have drained. */
module CassandraServer {
  import opened Common
  import opened CassandraRuntime
  import L = CassandraLedger

  /** An agentSession, by the runtime its server uses and the key it will release. */
  datatype Session = Session(runtime: ConnectionRuntime, key: string)

  class RuntimeServer {
    var sessions: map<string, Session>
    var runtimes: map<string, ConnectionRuntime>

    constructor ()
      ensures sessions == map[] && runtimes == map[]
    {
      sessions, runtimes := map[], map[];
    }

    /** Every mapped runtime is open, referenced and under its own key, and every session
        releases the runtime it uses. */
    ghost predicate Valid()
      reads this, runtimes.Values
    {
      && (forall k :: k in runtimes ==> runtimes[k].key == k != "" && runtimes[k].references >= 1 && !runtimes[k].closed)
      && (forall n :: n in sessions ==> sessions[n].key in runtimes && runtimes[sessions[n].key] == sessions[n].runtime)
    }

    ghost function Users(key: string): set<string>
      reads this
    {
      set n | n in sessions && sessions[n].key == key
    }

    /** The registered sessions owe a release, and the requests in flight owe those under `owed`. */
    ghost predicate Counted(owed: multiset<string>)
      reads this, runtimes.Values
    {
      && Valid()
      && (forall k :: k in owed ==> k in runtimes)
      && (forall k :: k in runtimes ==> runtimes[k].references == |Users(k)| + owed[k])
    }

    /** No request is in flight. */
    ghost predicate Drained()
      reads this, runtimes.Values
    {
      Counted(multiset{})
    }

    method AcquireRuntime(key: string, pool: Option<int>, metadata: Option<int>) returns (runtime: ConnectionRuntime)
      requires Valid() && key != ""
      modifies `runtimes, if key in runtimes then {runtimes[key]} else {}
      ensures Valid() && key in runtimes && runtimes[key] == runtime
      ensures key in old(runtimes) ==>
        runtimes == old(runtimes) && runtime.View() == old(runtimes[key].View()).(references := old(runtimes[key].references) + 1)
      ensures key !in old(runtimes) ==>
        fresh(runtime) && runtimes == old(runtimes)[key := runtime] &&
        runtime.View() == NewRuntime(key, PoolSize(pool), MetadataLimit(PoolSize(pool), metadata)).(references := 1)
    {
      if key in runtimes {
        runtime := runtimes[key];
      } else {
        runtime := new ConnectionRuntime(key, pool, metadata);
        runtimes := runtimes[key := runtime];
      }
      runtime.references := runtime.references + 1;
    }

    /** An unknown key changes nothing; the last release takes the runtime out and closes it. */
    method ReleaseRuntime(key: string) returns (toClose: seq<Driver>)
      requires Valid()
      modifies `runtimes, if key in runtimes then {runtimes[key]} else {}
      ensures key !in old(runtimes) ==> runtimes == old(runtimes) && toClose == []
      ensures key in old(runtimes) && old(runtimes[key].references) > 1 ==>
        runtimes == old(runtimes) && toClose == [] &&
        runtimes[key].View() == old(runtimes[key].View()).(references := old(runtimes[key].references) - 1)
      ensures key in old(runtimes) && old(runtimes[key].references) == 1 ==>
        && runtimes == old(runtimes) - {key} && old(runtimes)[key].closed
        && Drivers(toClose) == old(Owned(runtimes[key]))
    {
      toClose := [];
      if key == "" || key !in runtimes {
        return;
      }
      var runtime := runtimes[key];
      if runtime.references > 0 {
        runtime.references := runtime.references - 1;
      }
      if runtime.references == 0 {
        runtimes := runtimes - {key};
        ghost var order;
        toClose, order := runtime.CloseAll();
        ghost var live := old(runtimes[key].sessions);
        assert toClose == Images(order, live) + old(runtimes[key].retired);
        forall d | d in live.Values
          ensures d in toClose
        {
          var k :| k in live && live[k] == d;
          var i :| 0 <= i < |order| && order[i] == k;
          assert toClose[i] == d;
        }
      }
    }

    /** The driver sessions that a runtime has, live or retired. */
    static ghost function Owned(runtime: ConnectionRuntime): set<Driver>
      reads runtime
    {
      runtime.sessions.Values + Drivers(runtime.retired)
    }

    static function Drivers(ds: seq<Driver>): set<Driver> {
      set d | d in ds
    }

    /** The first block of closeSession, for a name that is registered. */
    method Deregister(name: string, ghost owed: multiset<string>) returns (session: Session)
      requires Counted(owed) && name in sessions
      modifies `sessions
      ensures session == old(sessions)[name] && sessions == old(sessions) - {name}
      ensures Counted(owed + multiset{session.key}) && runtimes[session.key] == session.runtime
    {
      session := sessions[name];
      ghost var before := sessions;
      sessions := sessions - {name};
      forall k | k in runtimes
        ensures runtimes[k].references == |Users(k)| + (owed + multiset{session.key})[k]
      {
        assert (set n | n in before && before[n].key == k) == if session.key == k then Users(k) + {name} else Users(k);
      }
    }

    /** One of the releases that are owed. */
    method ReleaseOwed(key: string, ghost owed: multiset<string>) returns (toClose: seq<Driver>)
      requires Counted(owed + multiset{key}) && key in runtimes
      modifies `runtimes, runtimes[key]
      ensures Counted(owed)
      ensures if runtimes == old(runtimes) then toClose == [] && Owned(runtimes[key]) == old(Owned(runtimes[key]))
              else runtimes == old(runtimes) - {key} && old(runtimes)[key].closed && Drivers(toClose) == old(Owned(runtimes[key]))
    {
      assert runtimes[key].references == |Users(key)| + owed[key] + 1;
      NoUserLeft(key);
      toClose := ReleaseRuntime(key);
      forall k | k in runtimes
        ensures runtimes[k].references == |Users(k)| + owed[k]
      {
        assert (owed + multiset{key})[k] == owed[k] + L.One(k == key);
      }
    }

    /** A key without users is no session's key. */
    lemma NoUserLeft(key: string)
      ensures |Users(key)| == 0 ==> forall n :: n in sessions ==> sessions[n].key != key
    {
      assert forall n :: n in sessions && sessions[n].key == key ==> n in Users(key);
    }

    /** A runtime is mapped exactly while somebody owes it a release. */
    lemma MappedIffOwed(owed: multiset<string>, key: string)
      requires Counted(owed)
      ensures key in runtimes <==> key in owed || Users(key) != {}
    {
      if Users(key) != {} {
        var n :| n in Users(key);
        assert sessions[n].key == key;
      }
    }

    /** closeSession, whatever other requests in flight owe: an unknown name changes nothing, and the runtime is
        closed exactly when nobody else owes it a release. */
    method CloseSession(name: string, ghost owed: multiset<string>) returns (toClose: seq<Driver>)
      requires Counted(owed)
      modifies this, if name in sessions then {sessions[name].runtime} else {}
      ensures Counted(owed) && sessions == old(sessions) - {name}
      ensures name !in old(sessions) ==> runtimes == old(runtimes) && toClose == []
      ensures name in old(sessions) ==>
        var session := old(sessions)[name];
        if session.key in owed || Users(session.key) != {}
        then runtimes == old(runtimes) && toClose == [] && Owned(session.runtime) == old(Owned(sessions[name].runtime))
        else && runtimes == old(runtimes) - {session.key} && session.runtime.closed
             && Drivers(toClose) == old(Owned(sessions[name].runtime))
    {
      toClose := [];
      if name !in sessions {
        return;
      }
      var session := Deregister(name, owed);
      toClose := ReleaseOwed(session.key, owed);
      MappedIffOwed(owed, session.key);
    }

    /** Of the runtimes mapped at the start, those that left the map are closed. */
    ghost predicate Progress(all: map<string, ConnectionRuntime>)
      reads this, all.Values
    {
      && (forall k :: k in runtimes ==> k in all && runtimes[k] == all[k])
      && (forall k :: k in all && k !in runtimes ==> all[k].closed)
    }

    /** The driver sessions of all mapped runtimes. */
    ghost function AllOwned(): set<Driver>
      reads this, runtimes.Values
    {
      set k, d | k in runtimes && d in Owned(runtimes[k]) :: d
    }

    /** closeSession hands over every driver session that no mapped runtime has any more. */
    method CloseKeeping(name: string) returns (toClose: seq<Driver>)
      requires Drained() && name in sessions
      modifies this, sessions[name].runtime
      ensures Drained() && sessions == old(sessions) - {name}
      ensures runtimes == old(runtimes) || (runtimes == old(runtimes) - {old(sessions)[name].key} && old(sessions)[name].runtime.closed)
      ensures old(AllOwned()) <= AllOwned() + Drivers(toClose)
    {
      ghost var key, runtime := sessions[name].key, sessions[name].runtime;
      ghost var before, had := runtimes, map k | k in runtimes :: Owned(runtimes[k]);
      toClose := CloseSession(name, multiset{});
      forall d | d in old(AllOwned())
        ensures d in AllOwned() + Drivers(toClose)
      {
        var k :| k in before && d in had[k];
        if k in runtimes {
          assert k != key ==> Owned(runtimes[k]) == had[k];
          assert d in Owned(runtimes[k]);
        }
      }
    }

    /** Each of the driver sessions is in a mapped runtime or was handed over. */
    ghost predicate Accounts(owned: set<Driver>, done: seq<Driver>)
      reads this, runtimes.Values
    {
      forall d :: d in owned ==> d in AllOwned() || d in done
    }

    /** One round of the session loop of closeAllSessions. */
    method CloseNext(id: string, done: seq<Driver>, ghost all: map<string, ConnectionRuntime>, ghost owned: set<Driver>)
      returns (toClose: seq<Driver>)
      requires Progress(all) && Drained() && id in sessions && Accounts(owned, done)
      modifies this, all.Values
      ensures Progress(all) && Drained() && sessions.Keys == old(sessions.Keys) - {id} && Accounts(owned, toClose)
    {
      assert sessions[id].runtime == runtimes[sessions[id].key];
      var more := CloseKeeping(id);
      toClose := done + more;
    }

    /** The session loop of closeAllSessions. */
    method CloseEachSession() returns (toClose: seq<Driver>)
      requires Drained()
      modifies this, runtimes.Values
      ensures Drained() && sessions == map[] && Progress(old(runtimes)) && Accounts(old(AllOwned()), toClose)
    {
      var ids := sessions.Keys;
      ghost var all, owned := runtimes, AllOwned();
      toClose := [];
      while ids != {}
        invariant Progress(all) && Drained() && sessions.Keys == ids && Accounts(owned, toClose)
        decreases |ids|
      {
        var id :| id in ids;
        toClose := CloseNext(id, toClose, all, owned);
        ids := ids - {id};
      }
      assert sessions == map[];
    }

    /** The final sweep: takes the whole map and closes what is in it. */
    method Sweep() returns (swept: nat)
      modifies this, runtimes.Values
      ensures runtimes == map[] && sessions == old(sessions) && swept == |old(runtimes)|
      ensures forall k :: k in old(runtimes) ==> old(runtimes)[k].closed
    {
      var left := runtimes;
      runtimes := map[];
      swept := 0;
      while left != map[]
        invariant forall k :: k in left ==> k in old(runtimes) && left[k] == old(runtimes)[k]
        invariant forall k :: k in old(runtimes) && k !in left ==> old(runtimes)[k].closed
        invariant swept + |left| == |old(runtimes)| && runtimes == map[] && sessions == old(sessions)
        decreases |left|
      {
        var k :| k in left;
        var _, _ := left[k].CloseAll();
        assert (left - {k}).Keys == left.Keys - {k};
        left, swept := left - {k}, swept + 1;
      }
    }

    /** The shutdown request, alone after the drain: closing the sessions takes every runtime
        out of the map and closes it, and the final sweep finds nothing. */
    method CloseAllSessions() returns (swept: nat, toClose: seq<Driver>)
      requires Drained()
      modifies this, runtimes.Values
      ensures sessions == map[] && runtimes == map[] && swept == 0
      ensures forall k :: k in old(runtimes) ==> old(runtimes)[k].closed
      ensures old(AllOwned()) <= Drivers(toClose)
    {
      toClose := CloseEachSession();
      assert forall k :: Users(k) == {};
      assert runtimes == map[];
      swept := Sweep();
    }
  }
}
