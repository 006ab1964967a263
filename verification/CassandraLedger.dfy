/** Reference counting of the shared runtimes, apart from everything else the agent does.

    A ledger is what `runtimesMu` and `runtimeServer.mu` protect: which request threads
    owe a release (`debts`), which registered sessions will (`members`), the runtimes map,
    and the counter of every runtime ever created. */
module CassandraLedger {

  // ---- counting the keys of a map that carry one value ----

  ghost function Carriers<K>(m: map<K, nat>, v: nat): set<K> {
    set k | k in m && m[k] == v
  }

  ghost function Tally<K>(m: map<K, nat>, v: nat): nat {
    |Carriers(m, v)|
  }

  function One(b: bool): int {
    if b then 1 else 0
  }

  lemma TallyPut<K>(m: map<K, nat>, k: K, x: nat, v: nat)
    ensures Tally(m[k := x], v) == Tally(m, v) + One(x == v) - One(k in m && m[k] == v)
  {
    var others := Carriers(m, v) - {k};
    assert Carriers(m, v) == if k in m && m[k] == v then others + {k} else others;
    assert Carriers(m[k := x], v) == if x == v then others + {k} else others;
  }

  lemma TallyDrop<K>(m: map<K, nat>, k: K, v: nat)
    ensures Tally(m - {k}, v) == Tally(m, v) - One(k in m && m[k] == v)
  {
    var others := Carriers(m, v) - {k};
    assert Carriers(m, v) == if k in m && m[k] == v then others + {k} else others;
    assert Carriers(m - {k}, v) == others;
  }

  lemma TallyZero<K>(m: map<K, nat>, v: nat)
    ensures Tally(m, v) == 0 <==> forall k :: k in m ==> m[k] != v
  {
    if Tally(m, v) == 0 {
      assert forall k :: k in m && m[k] == v ==> k in Carriers(m, v);
    } else {
      assert Carriers(m, v) != {};
    }
  }

  /** A sub-map carries a value at most as often. */
  lemma TallySubset<K>(m: map<K, nat>, n: map<K, nat>, v: nat)
    requires forall k :: k in m ==> k in n && n[k] == m[k]
    ensures Tally(m, v) <= Tally(n, v)
  {
    SubsetSize(Carriers(m, v), Carriers(n, v));
  }

  lemma SubsetSize<K>(a: set<K>, b: set<K>)
    requires a <= b
    ensures |a| <= |b|
  {
    assert b == a + (b - a);
  }

  // ---- the ledger ----

  datatype Ledger = Ledger(
    debts: map<nat, nat>,          // thread -> runtime it must still release
    members: map<string, nat>,     // registered session -> its runtime
    runtimes: map<string, nat>,
    refs: seq<int>,
    keys: seq<string>)

  predicate Shaped(l: Ledger) {
    |l.refs| == |l.keys| && forall k :: k in l.runtimes ==> l.runtimes[k] < |l.refs|
  }

  /** The map finds this very runtime under its key. */
  predicate Current(l: Ledger, rt: nat) {
    rt < |l.keys| && l.keys[rt] in l.runtimes && l.runtimes[l.keys[rt]] == rt
  }

  ghost function Owed(l: Ledger, rt: nat): nat {
    Tally(l.debts, rt) + Tally(l.members, rt)
  }

  ghost predicate Balanced(l: Ledger) {
    && Shaped(l)
    && (forall k :: k in l.runtimes ==> l.keys[l.runtimes[k]] == k && l.refs[l.runtimes[k]] == Owed(l, l.runtimes[k]) >= 1)
    && (forall t :: t in l.debts ==> Current(l, l.debts[t]))
    && (forall n :: n in l.members ==> Current(l, l.members[n]))
  }

  function AddFresh(l: Ledger, key: string): Ledger {
    l.(refs := l.refs + [0], keys := l.keys + [key])
  }

  function Owe(l: Ledger, t: nat, key: string): Ledger
    requires Shaped(l)
  {
    if key in l.runtimes then
      var rt := l.runtimes[key];
      l.(debts := l.debts[t := rt], refs := l.refs[rt := l.refs[rt] + 1])
    else
      l.(debts := l.debts[t := |l.refs|], runtimes := l.runtimes[key := |l.refs|], refs := l.refs + [1], keys := l.keys + [key])
  }

  function Enrol(l: Ledger, t: nat, name: string): Ledger
    requires t in l.debts
  {
    l.(debts := l.debts - {t}, members := l.members[name := l.debts[t]])
  }

  function Withdraw(l: Ledger, t: nat, name: string): Ledger
    requires name in l.members
  {
    l.(debts := l.debts[t := l.members[name]], members := l.members - {name})
  }

  function Settle(l: Ledger, t: nat): Ledger
    requires t in l.debts && l.debts[t] < |l.refs| && Shaped(l)
  {
    var rt := l.debts[t];
    var left := l.refs[rt] - 1;
    l.(debts := l.debts - {t}, refs := l.refs[rt := left],
       runtimes := if left == 0 then l.runtimes - {l.keys[rt]} else l.runtimes)
  }

  lemma FreshKeeps(l: Ledger, key: string)
    requires Balanced(l)
    ensures Balanced(AddFresh(l, key)) && !Current(AddFresh(l, key), |l.refs|)
  {
    var l' := AddFresh(l, key);
    assert forall k :: k in l.runtimes ==> Owed(l', l.runtimes[k]) == Owed(l, l.runtimes[k]);
  }

  lemma OweKeeps(l: Ledger, t: nat, key: string)
    requires Balanced(l) && t !in l.debts
    ensures Balanced(Owe(l, t, key)) && Current(Owe(l, t, key), Owe(l, t, key).debts[t])
  {
    if key in l.runtimes {
      OweKnownKeeps(l, t, key);
    } else {
      OweNewKeeps(l, t, key);
    }
  }

  lemma OweKnownKeeps(l: Ledger, t: nat, key: string)
    requires Balanced(l) && t !in l.debts && key in l.runtimes
    ensures Balanced(Owe(l, t, key)) && Current(Owe(l, t, key), Owe(l, t, key).debts[t])
  {
    var l' := Owe(l, t, key);
    forall k | k in l.runtimes
      ensures Owed(l', l.runtimes[k]) == Owed(l, l.runtimes[k]) + One(l.runtimes[k] == l.runtimes[key])
    {
      TallyPut(l.debts, t, l.runtimes[key], l.runtimes[k]);
    }
    assert forall rt :: Current(l, rt) ==> Current(l', rt);
  }

  lemma OweNewKeeps(l: Ledger, t: nat, key: string)
    requires Balanced(l) && t !in l.debts && key !in l.runtimes
    ensures Balanced(Owe(l, t, key)) && Current(Owe(l, t, key), Owe(l, t, key).debts[t])
  {
    var l' := Owe(l, t, key);
    var rt := |l.refs|;
    NothingOwed(l, rt);
    TallyPut(l.debts, t, rt, rt);
    forall k | k in l.runtimes
      ensures Owed(l', l.runtimes[k]) == Owed(l, l.runtimes[k])
    {
      TallyPut(l.debts, t, rt, l.runtimes[k]);
    }
    assert forall x :: Current(l, x) ==> Current(l', x);
  }

  /** Nobody owes a release of a runtime that is not current. */
  lemma NothingOwed(l: Ledger, rt: nat)
    requires Balanced(l) && !Current(l, rt)
    ensures Owed(l, rt) == 0
  {
    TallyZero(l.debts, rt);
    TallyZero(l.members, rt);
  }

  lemma EnrolKeeps(l: Ledger, t: nat, name: string)
    requires Balanced(l) && t in l.debts && name !in l.members
    ensures Balanced(Enrol(l, t, name))
  {
    EnrolOwed(l, t, name);
    assert forall x :: Current(l, x) ==> Current(Enrol(l, t, name), x);
  }

  lemma EnrolOwed(l: Ledger, t: nat, name: string)
    requires Balanced(l) && t in l.debts && name !in l.members
    ensures forall k :: k in l.runtimes ==> Owed(Enrol(l, t, name), l.runtimes[k]) == Owed(l, l.runtimes[k])
  {
    forall k | k in l.runtimes
      ensures Owed(Enrol(l, t, name), l.runtimes[k]) == Owed(l, l.runtimes[k])
    {
      TallyDrop(l.debts, t, l.runtimes[k]);
      TallyPut(l.members, name, l.debts[t], l.runtimes[k]);
    }
  }

  lemma WithdrawKeeps(l: Ledger, t: nat, name: string)
    requires Balanced(l) && t !in l.debts && name in l.members
    ensures Balanced(Withdraw(l, t, name))
  {
    var l' := Withdraw(l, t, name);
    forall k | k in l.runtimes
      ensures Owed(l', l.runtimes[k]) == Owed(l, l.runtimes[k])
    {
      TallyPut(l.debts, t, l.members[name], l.runtimes[k]);
      TallyDrop(l.members, name, l.runtimes[k]);
    }
  }

  /** The runtime leaves the map exactly with the last release that was owed. */
  lemma SettleKeeps(l: Ledger, t: nat)
    requires Balanced(l) && t in l.debts
    ensures l.debts[t] < |l.refs|
    ensures Balanced(Settle(l, t))
    ensures Current(Settle(l, t), l.debts[t]) <==> Owed(l, l.debts[t]) > 1
  {
    var rt := l.debts[t];
    assert Current(l, rt);
    assert l.refs[l.runtimes[l.keys[rt]]] == Owed(l, rt);
    if Owed(l, rt) == 1 {
      SettleLast(l, t);
    } else {
      SettleMore(l, t);
    }
  }

  lemma SettleOwed(l: Ledger, t: nat)
    requires Balanced(l) && t in l.debts && l.debts[t] < |l.refs|
    ensures forall k :: k in l.runtimes ==>
      Owed(Settle(l, t), l.runtimes[k]) == Owed(l, l.runtimes[k]) - One(l.runtimes[k] == l.debts[t])
  {
    forall k | k in l.runtimes
      ensures Owed(Settle(l, t), l.runtimes[k]) == Owed(l, l.runtimes[k]) - One(l.runtimes[k] == l.debts[t])
    {
      TallyDrop(l.debts, t, l.runtimes[k]);
    }
  }

  lemma SettleMore(l: Ledger, t: nat)
    requires Balanced(l) && t in l.debts && l.debts[t] < |l.refs| && l.refs[l.debts[t]] > 1
    ensures Balanced(Settle(l, t)) && Current(Settle(l, t), l.debts[t])
  {
    var l' := Settle(l, t);
    SettleOwed(l, t);
    assert forall x :: Current(l, x) ==> Current(l', x);
  }

  lemma SettleLast(l: Ledger, t: nat)
    requires Balanced(l) && t in l.debts && l.debts[t] < |l.refs| && l.refs[l.debts[t]] == Owed(l, l.debts[t]) == 1
    ensures Balanced(Settle(l, t)) && !Current(Settle(l, t), l.debts[t])
  {
    var rt := l.debts[t];
    var l' := Settle(l, t);
    SettleOwed(l, t);
    assert Current(l, rt);
    assert l.runtimes[l.keys[rt]] == rt;
    LastOne(l', rt);
    OthersStayCurrent(l, t);
  }

  lemma OthersStayCurrent(l: Ledger, t: nat)
    requires Balanced(l) && t in l.debts && l.debts[t] < |l.refs|
    ensures forall x :: Current(l, x) && x != l.debts[t] ==> Current(Settle(l, t), x)
  {
    assert Current(l, l.debts[t]);
  }

  lemma LastOne(l: Ledger, rt: nat)
    requires Owed(l, rt) == 0
    ensures forall t :: t in l.debts ==> l.debts[t] != rt
    ensures forall n :: n in l.members ==> l.members[n] != rt
  {
    TallyZero(l.debts, rt);
    TallyZero(l.members, rt);
  }
}
