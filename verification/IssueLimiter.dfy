/** The rolling limiter of issue drafts (consumeRollingLimit in docs/lib/issueSubmission.ts). */
module IssueLimiter {
  datatype Verdict = Verdict(allowed: bool, timestamps: seq<int>, remaining: nat, resetAt: int)

  function Last<T>(s: seq<T>): T
    requires s != []
  {
    s[|s| - 1]
  }

  function Init<T>(s: seq<T>): seq<T>
    requires s != []
  {
    s[..|s| - 1]
  }

  /** The timestamps that lie in the window that ends at `now`. */
  function Active(timestamps: seq<int>, now: int, window: nat): seq<int> {
    if timestamps == [] then []
    else
      var rest := Active(Init(timestamps), now, window);
      if Last(timestamps) > now - window then rest + [Last(timestamps)] else rest
  }

  predicate Sorted(s: seq<int>) {
    |s| <= 1 || (Sorted(Init(s)) && Last(Init(s)) <= Last(s))
  }

  function Insert(s: seq<int>, x: int): seq<int> {
    if s == [] || Last(s) <= x then s + [x] else Insert(Init(s), x) + [Last(s)]
  }

  function Sort(s: seq<int>): seq<int> {
    if s == [] then [] else Insert(Sort(Init(s)), Last(s))
  }

  lemma Snoc<T>(s: seq<T>, x: T)
    ensures Init(s + [x]) == s && Last(s + [x]) == x
  {
  }

  lemma {:induction false} InsertSorts(s: seq<int>, x: int)
    requires Sorted(s)
    ensures Sorted(Insert(s, x)) && Insert(s, x) != []
    ensures Last(Insert(s, x)) == if s == [] || Last(s) <= x then x else Last(s)
    decreases |s|
  {
    if s == [] || Last(s) <= x {
      Snoc(s, x);
    } else {
      InsertSorts(Init(s), x);
      Snoc(Insert(Init(s), x), Last(s));
    }
  }

  lemma {:induction false} InsertAdds(s: seq<int>, x: int)
    ensures multiset(Insert(s, x)) == multiset(s) + multiset{x} && |Insert(s, x)| == |s| + 1
    decreases |s|
  {
    if s != [] && Last(s) > x {
      InsertAdds(Init(s), x);
      assert s == Init(s) + [Last(s)];
    }
  }

  /** Sorting orders what it is given, */
  lemma {:induction false} SortSorts(s: seq<int>)
    ensures Sorted(Sort(s))
    decreases |s|
  {
    if s != [] {
      SortSorts(Init(s));
      InsertSorts(Sort(Init(s)), Last(s));
    }
  }

  /** and neither adds nor drops anything. */
  lemma {:induction false} SortPermutes(s: seq<int>)
    ensures multiset(Sort(s)) == multiset(s) && |Sort(s)| == |s|
    decreases |s|
  {
    if s != [] {
      var init, last := Init(s), Last(s);
      SortPermutes(init);
      InsertAdds(Sort(init), last);
      assert s == init + [last];
      assert multiset(s) == multiset(init) + multiset{last};
    }
  }

  lemma InsertLast(s: seq<int>, x: int)
    requires s == [] || Last(s) <= x
    ensures Insert(s, x) == s + [x]
  {
  }

  lemma {:induction false} SortOfSorted(s: seq<int>)
    requires Sorted(s)
    ensures Sort(s) == s
    decreases |s|
  {
    if s != [] {
      var init, last := Init(s), Last(s);
      SortOfSorted(init);
      InsertLast(init, last);
      assert s == init + [last];
    }
  }

  function Consume(timestamps: seq<int>, now: int, limit: nat, window: nat): (v: Verdict)
    requires limit > 0
  {
    var active := Sort(Active(timestamps, now, window));
    if |active| >= limit then Verdict(false, active, 0, active[0] + window)
    else
      var pushed := active + [now];
      Verdict(true, pushed, limit - |pushed|, pushed[0] + window)
  }

  method InsertInto(s: seq<int>, x: int) returns (r: seq<int>)
    ensures r == Insert(s, x)
  {
    var j := |s|;
    assert s[..j] == s;
    while j > 0 && s[j - 1] > x
      invariant 0 <= j <= |s|
      invariant Insert(s, x) == Insert(s[..j], x) + s[j..]
    {
      ghost var front := Insert(s[..j - 1], x);
      assert Init(s[..j]) == s[..j - 1] && Insert(s[..j], x) == front + [s[j - 1]];
      assert front + [s[j - 1]] + s[j..] == front + s[j - 1..];
      j := j - 1;
    }
    return s[..j] + [x] + s[j..];
  }

  method Filter(timestamps: seq<int>, now: int, window: nat) returns (active: seq<int>)
    ensures active == Active(timestamps, now, window)
  {
    active := [];
    for i := 0 to |timestamps|
      invariant active == Active(timestamps[..i], now, window)
    {
      Snoc(timestamps[..i], timestamps[i]);
      assert timestamps[..i + 1] == timestamps[..i] + [timestamps[i]];
      if timestamps[i] > now - window {
        active := active + [timestamps[i]];
      }
    }
    assert timestamps[..|timestamps|] == timestamps;
  }

  method InsertionSort(s: seq<int>) returns (sorted: seq<int>)
    ensures sorted == Sort(s)
  {
    sorted := [];
    for i := 0 to |s|
      invariant sorted == Sort(s[..i])
    {
      Snoc(s[..i], s[i]);
      assert s[..i + 1] == s[..i] + [s[i]];
      sorted := InsertInto(sorted, s[i]);
    }
    assert s[..|s|] == s;
  }

  /** consumeRollingLimit */
  method ConsumeRollingLimit(timestamps: seq<int>, now: int, limit: nat, window: nat) returns (v: Verdict)
    requires limit > 0
    ensures v == Consume(timestamps, now, limit, window)
  {
    var active := Filter(timestamps, now, window);
    active := InsertionSort(active);
    if |active| >= limit {
      return Verdict(false, active, 0, active[0] + window);
    }
    active := active + [now];
    return Verdict(true, active, limit - |active|, active[0] + window);
  }

  // ---- windows over ordered times ----

  /** How many of the times lie after `from`, up to and including `to`. */
  function CountIn(times: seq<int>, from: int, to: int): nat {
    if times == [] then 0 else CountIn(Init(times), from, to) + (if from < Last(times) <= to then 1 else 0)
  }

  lemma {:induction false} ActiveOfActive(s: seq<int>, now: int, later: int, window: nat)
    requires now <= later
    ensures Active(Active(s, now, window), later, window) == Active(s, later, window)
    decreases |s|
  {
    if s != [] {
      ActiveOfActive(Init(s), now, later, window);
      if Last(s) > now - window {
        Snoc(Active(Init(s), now, window), Last(s));
      }
    }
  }

  lemma {:induction false} ActiveSorted(s: seq<int>, now: int, window: nat)
    requires Sorted(s)
    ensures var a := Active(s, now, window);
      Sorted(a) && (a != [] ==> s != [] && Last(a) == Last(s) > now - window) && (a == [] && s != [] ==> Last(s) <= now - window)
    decreases |s|
  {
    if s != [] {
      ActiveSorted(Init(s), now, window);
      if Last(s) > now - window {
        Snoc(Active(Init(s), now, window), Last(s));
      }
    }
  }

  lemma {:induction false} NoneActive(s: seq<int>, now: int, window: nat)
    requires Sorted(s) && (s != [] ==> Last(s) <= now - window)
    ensures Active(s, now, window) == []
    decreases |s|
  {
    if s != [] {
      NoneActive(Init(s), now, window);
    }
  }

  /** The times in a later window that are not after `now` are in the window of `now`. */
  lemma {:induction false} CountLater(s: seq<int>, now: int, to: int, window: nat)
    requires Sorted(s) && (s != [] ==> Last(s) <= now) && now <= to
    ensures CountIn(s, to - window, to) <= |Active(s, now, window)|
    ensures CountIn(s, now - window, now) == |Active(s, now, window)|
    decreases |s|
  {
    if s != [] {
      CountLater(Init(s), now, to, window);
    }
  }

  /** A full window has room again exactly when its first time has left it. */
  lemma {:induction false} FirstLeaves(s: seq<int>, now: int, window: nat)
    requires Sorted(s) && s != []
    ensures |Active(s, now, window)| <= |s|
    ensures |Active(s, now, window)| < |s| <==> s[0] <= now - window
    ensures s[0] <= Last(s)
    decreases |s|
  {
    if |s| > 1 {
      FirstLeaves(Init(s), now, window);
    }
  }
}
