/** Paged CQL queries (agents/drivers/cassandra-go/query.go): the server's continuation state and a row budget. */
module CassandraPaging {
  import opened Common
  import opened ResultSets

  const DEFAULT_MAX_ROWS := 10000
  const DEFAULT_PAGE_SIZE := 500

  /** The server's opaque continuation; empty when there is none. */
  type PageState = seq<nat>

  /** What a request for one page came back with. */
  datatype Answer<+Row> = Answer(columns: nat, rows: seq<Row>, next: PageState, failure: Option<string>)

  datatype Reply<+Row> = Reply(rows: seq<Row>, hasMore: bool, truncated: bool, session: Option<nat>)

  function Min(a: int, b: int): int {
    if a < b then a else b
  }

  /** The rows and the continuation that the agent takes from an answer to a request for `size` rows. */
  function Taken<Row>(answer: Answer<Row>, size: nat): Result<(seq<Row>, PageState), string> {
    if answer.failure.Some? then Err(answer.failure.value)
    else if answer.columns == 0 then Ok(([], []))
    else Ok((answer.rows[..Min(|answer.rows|, size)], answer.next))
  }

  /** The rows are the first of the answer, within the size that was asked for and within the budget, and no row is held
      back that fits both. */
  predicate Fills<Row(==)>(rows: seq<Row>, answer: Answer<Row>, size: int, budget: int) {
    && |rows| <= size && |rows| <= budget && rows <= answer.rows
    && (answer.columns > 0 ==> |rows| == |answer.rows| || |rows| == size || |rows| == budget)
  }

  /** fetchCQLPage, from the answer to its request on. */
  method FetchCqlPage<Row>(answer: Answer<Row>, pageSize: int, remaining: int)
    returns (r: Result<(seq<Row>, PageState), string>)
    ensures Min(pageSize, remaining) > 0 ==> r == Taken(answer, Min(pageSize, remaining))
    ensures Min(pageSize, remaining) <= 0 ==> r == Ok(([], []))
    ensures pageSize > 0 && remaining > 0 && r.Ok? ==> Fills(r.value.0, answer, pageSize, remaining)
  {
    var size := pageSize;
    if remaining < size {
      size := remaining;
    }
    if size <= 0 {
      return Ok(([], []));
    }
    if answer.columns == 0 {
      return if answer.failure.Some? then Err(answer.failure.value) else Ok(([], []));
    }
    var rows: seq<Row> := [];
    var index := 0;
    while |rows| < size
      invariant index == |rows| <= size && index <= |answer.rows| && rows == answer.rows[..index]
    {
      if index == |answer.rows| {
        break;
      }
      rows := rows + [answer.rows[index]];
      index := index + 1;
    }
    if answer.failure.Some? {
      return Err(answer.failure.value);
    }
    return Ok((rows, answer.next));
  }

  /** executeQuery's row loop: the rows up to the limit in one go. */
  method ReadAll<Row>(source: Source<Row>, limit: nat) returns (r: Result<(seq<Row>, bool), string>)
    ensures r == OneShot(source, limit)
  {
    var rows: seq<Row> := [];
    var index := 0;
    var truncated := false;
    while |rows| < limit
      invariant index == |rows| <= limit && index <= |source.rows| && rows == source.rows[..index]
    {
      if index == |source.rows| {
        break;
      }
      rows := rows + [source.rows[index]];
      index := index + 1;
    }
    if |rows| == limit {
      truncated := index < |source.rows|;
    }
    if !truncated && source.failure.Some? {
      return Err(source.failure.value);
    }
    assert !truncated ==> rows == source.rows;
    return Ok((rows, truncated));
  }

  // ---- a client's run ----

  /** A session: where the next page starts and how many rows it may still give. */
  datatype Place = Place(state: PageState, remaining: nat)

  /** One page request: its size as the agent settled it, and the answer. */
  datatype Fetch<+Row> = Fetch(size: nat, answer: Answer<Row>)

  datatype Run = Open(place: Place) | Done(truncated: bool)

  /** What a run has delivered and where it stands. */
  datatype Progress<+Row> = Progress(rows: seq<Row>, run: Run)

  /** Where a session stands after a page of `count` rows that came with `next`. */
  function Onward(place: Place, count: nat, next: PageState): Run {
    if next == [] || place.remaining <= count then Done(next != []) else Open(Place(next, place.remaining - count))
  }

  /** A page read at an open session; a failed one leaves everything as it is. */
  function Step<Row>(p: Progress<Row>, fetch: Fetch<Row>): Progress<Row> {
    if p.run.Done? then p
    else
      match Taken(fetch.answer, Min(fetch.size, p.run.place.remaining))
      case Err(_) => p
      case Ok((rows, next)) => Progress(p.rows + rows, Onward(p.run.place, |rows|, next))
  }

  function Steps<Row>(p: Progress<Row>, fetches: seq<Fetch<Row>>): Progress<Row>
    decreases |fetches|
  {
    if fetches == [] then p else Steps(Step(p, fetches[0]), fetches[1..])
  }

  function Start<Row>(limit: nat): Progress<Row> {
    Progress([], Open(Place([], limit)))
  }

  /** The answer is the stretch of the rows at which the state points, and its continuation points behind it. */
  predicate Continues<Row(==)>(rows: seq<Row>, pos: PageState -> nat, state: PageState, answer: Answer<Row>) {
    answer.failure.None? ==>
      && answer.columns > 0
      && var p := pos(state);
      var end := p + |answer.rows|;
      && end <= |rows|
      && answer.rows == rows[p..end]
      && (if answer.next == [] then end == |rows| else pos(answer.next) == end)
  }

  /** Every answer of the run is such a stretch, and within the requested size. */
  predicate Honest<Row(==)>(rows: seq<Row>, pos: PageState -> nat, p: Progress<Row>, fetches: seq<Fetch<Row>>)
    decreases |fetches|
  {
    fetches == [] ||
    (&& (p.run.Open? ==>
         && Continues(rows, pos, p.run.place.state, fetches[0].answer)
         && (fetches[0].answer.failure.None? ==> |fetches[0].answer.rows| <= Min(fetches[0].size, p.run.place.remaining)))
     && Honest(rows, pos, Step(p, fetches[0]), fetches[1..]))
  }

  /** The pages so far are a prefix of the rows, the session continues behind it within the budget, and a
      finished run has all rows or as many as the budget allows. */
  predicate Sound<Row(==)>(rows: seq<Row>, limit: nat, pos: PageState -> nat, p: Progress<Row>) {
    && p.rows <= rows
    && match p.run
       case Open(place) => place.remaining > 0 && |p.rows| + place.remaining == limit && pos(place.state) == |p.rows|
       case Done(truncated) => |p.rows| == Min(|rows|, limit) && (if truncated then |rows| >= limit else |rows| <= limit)
  }

  /** A page keeps the run sound exactly when the answer is within the requested size, or is cut where the
      budget ends and says that it goes on. */
  lemma StepSoundIff<Row>(rows: seq<Row>, limit: nat, pos: PageState -> nat, p: Progress<Row>, fetch: Fetch<Row>)
    requires Sound(rows, limit, pos, p) && p.run.Open? && fetch.size > 0
    requires Continues(rows, pos, p.run.place.state, fetch.answer)
    ensures Sound(rows, limit, pos, Step(p, fetch))
       <==> || fetch.answer.failure.Some?
            || |fetch.answer.rows| <= Min(fetch.size, p.run.place.remaining)
            || (fetch.size >= p.run.place.remaining && fetch.answer.next != [])
  {
    var answer, size := fetch.answer, Min(fetch.size, p.run.place.remaining);
    if answer.failure.None? {
      var count := Min(|answer.rows|, size);
      assert answer.rows[..count] == rows[|p.rows|..|p.rows| + count];
      assert p.rows + answer.rows[..count] == rows[..|p.rows| + count];
    }
  }

  lemma {:induction false} StepsSound<Row>(
    rows: seq<Row>, limit: nat, pos: PageState -> nat, p: Progress<Row>, fetches: seq<Fetch<Row>>)
    requires Sound(rows, limit, pos, p) && Honest(rows, pos, p, fetches)
    requires forall i :: 0 <= i < |fetches| ==> fetches[i].size > 0
    ensures Sound(rows, limit, pos, Steps(p, fetches))
    decreases |fetches|
  {
    if fetches != [] {
      if p.run.Open? {
        StepSoundIff(rows, limit, pos, p, fetches[0]);
      }
      StepsSound(rows, limit, pos, Step(p, fetches[0]), fetches[1..]);
    }
  }

  /** Whatever the page sizes, however short the server's pages and however many requests fail: the pages put
      together are a prefix of the rows, and in the end all rows or as many as the limit allows. */
  lemma PagesAreThePrefix<Row>(rows: seq<Row>, limit: nat, pos: PageState -> nat, fetches: seq<Fetch<Row>>)
    requires limit > 0 && pos([]) == 0 && Honest(rows, pos, Start(limit), fetches)
    requires forall i :: 0 <= i < |fetches| ==> fetches[i].size > 0
    ensures var p := Steps(Start(limit), fetches);
      && p.rows <= rows
      && |p.rows| <= limit
      && (p.run.Done? ==> OneShot(Source(rows, None), limit) == Ok((p.rows, |rows| > limit)))
      && (p.run.Done? && |rows| != limit ==> p.run.truncated == (|rows| > limit))
  {
    StepsSound(rows, limit, pos, Start(limit), fetches);
    var p := Steps(Start(limit), fetches);
    if p.run.Done? {
      assert p.rows == rows[..|p.rows|] && rows[..|rows|] == rows;
    }
  }

  /** What an open run may still deliver is what it has not delivered yet. */
  predicate Budgeted<Row>(p: Progress<Row>, limit: nat) {
    match p.run
    case Open(place) => |p.rows| + place.remaining == limit
    case Done(_) => |p.rows| <= limit
  }

  /** Whatever the server answers, all pages of a run together stay within the limit, and no page is larger than asked
      for. */
  lemma {:induction false} RunWithinLimit<Row>(p: Progress<Row>, fetches: seq<Fetch<Row>>, limit: nat)
    requires Budgeted(p, limit)
    ensures Budgeted(Steps(p, fetches), limit)
    ensures forall i :: 0 <= i < |fetches| ==>
      |Steps(p, fetches[..i + 1]).rows| <= |Steps(p, fetches[..i]).rows| + fetches[i].size
    decreases |fetches|
  {
    if fetches != [] {
      RunWithinLimit(Step(p, fetches[0]), fetches[1..], limit);
      forall i | 0 <= i < |fetches|
        ensures |Steps(p, fetches[..i + 1]).rows| <= |Steps(p, fetches[..i]).rows| + fetches[i].size
      {
        StepsUnfold(p, fetches, i + 1);
        if i == 0 {
          assert fetches[..0] == [] && fetches[1..][..0] == [];
        } else {
          StepsUnfold(p, fetches, i);
          assert fetches[1..][i - 1] == fetches[i];
        }
      }
    }
  }

  lemma StepsUnfold<Row>(p: Progress<Row>, fetches: seq<Fetch<Row>>, n: nat)
    requires 1 <= n <= |fetches|
    ensures Steps(p, fetches[..n]) == Steps(Step(p, fetches[0]), fetches[1..][..n - 1])
  {
    assert fetches[..n][1..] == fetches[1..][..n - 1];
  }

  /** Only when there are exactly as many rows as the limit can the flag differ from the one-shot flag, and it
      does exactly when the server sends a continuation with the last of them. */
  lemma FlagAtTheLimit<Row>(rows: seq<Row>, pos: PageState -> nat, p: Progress<Row>, fetch: Fetch<Row>)
    requires Sound(rows, |rows|, pos, p) && p.run.Open? && fetch.size > 0
    requires Honest(rows, pos, p, [fetch]) && Step(p, fetch).run.Done?
    ensures OneShot(Source(rows, None), |rows|) == Ok((Step(p, fetch).rows, false))
    ensures Step(p, fetch).run.truncated <==> fetch.answer.next != []
  {
    StepSoundIff(rows, |rows|, pos, p, fetch);
    assert Step(p, fetch).rows == rows;
  }

  /** The request that ends a run, if one does. */
  function Closing<Row>(p: Progress<Row>, fetches: seq<Fetch<Row>>): Option<Fetch<Row>>
    decreases |fetches|
  {
    if fetches == [] || p.run.Done? then None
    else if Step(p, fetches[0]).run.Done? then Some(fetches[0])
    else Closing(Step(p, fetches[0]), fetches[1..])
  }

  /** The flag of a run that ends is set exactly when the answer that ends it carries a continuation. */
  lemma {:induction false} ClosingDecides<Row>(
    rows: seq<Row>, pos: PageState -> nat, p: Progress<Row>, fetches: seq<Fetch<Row>>)
    requires p.run.Open? && Steps(p, fetches).run.Done? && Honest(rows, pos, p, fetches)
    ensures Closing(p, fetches).Some?
    ensures Steps(p, fetches).run.truncated <==> Closing(p, fetches).value.answer.next != []
    decreases |fetches|
  {
    var next := Step(p, fetches[0]);
    if next.run.Done? {
      DoneStays(next, fetches[1..]);
    } else {
      ClosingDecides(rows, pos, next, fetches[1..]);
    }
  }

  lemma {:induction false} DoneStays<Row>(p: Progress<Row>, fetches: seq<Fetch<Row>>)
    requires p.run.Done?
    ensures Steps(p, fetches) == p
    decreases |fetches|
  {
    if fetches != [] {
      DoneStays(p, fetches[1..]);
    }
  }

  /** Over whole runs: the flag of a finished paged query differs from the flag of the one-shot query exactly when
      there are as many rows as the limit and the server sends a continuation with the last of them. */
  lemma FlagDiffersIff<Row>(rows: seq<Row>, limit: nat, pos: PageState -> nat, fetches: seq<Fetch<Row>>)
    requires limit > 0 && pos([]) == 0 && Honest(rows, pos, Start(limit), fetches)
    requires forall i :: 0 <= i < |fetches| ==> fetches[i].size > 0
    requires Steps(Start(limit), fetches).run.Done?
    ensures Closing(Start(limit), fetches).Some?
    ensures OneShot(Source(rows, None), limit) == Ok((Steps(Start(limit), fetches).rows, |rows| > limit))
    ensures Steps(Start(limit), fetches).run.truncated != (|rows| > limit)
       <==> |rows| == limit && Closing(Start(limit), fetches).value.answer.next != []
  {
    PagesAreThePrefix(rows, limit, pos, fetches);
    ClosingDecides(rows, pos, Start(limit), fetches);
  }

  /** One row, a limit of one, and a server that sends a continuation with it: the paged query says that rows were
      cut off, and the one-shot query, rightly, does not. */
  lemma FlagWithoutCut() returns (pos: PageState -> nat, fetches: seq<Fetch<int>>)
    ensures pos([]) == 0 && Honest([0], pos, Start(1), fetches) && fetches == [Fetch(1, Answer(1, [0], [7], None))]
    ensures Steps(Start(1), fetches) == Progress([0], Done(true))
    ensures OneShot(Source([0], None), 1) == Ok(([0], false))
  {
    pos := (state: PageState) => if state == [] then 0 else 1;
    var fetch := Fetch(1, Answer(1, [0], [7], None));
    fetches := [fetch];
    assert [0][0..1] == [0];
    assert Continues([0], pos, [], fetch.answer);
    assert Step(Start(1), fetch) == Progress([0], Done(true));
    assert Honest([0], pos, Start(1), fetches);
  }

  function Succeeding<Row>(fetches: seq<Fetch<Row>>): seq<Fetch<Row>> {
    if fetches == [] then []
    else (if fetches[0].answer.failure.Some? then [] else [fetches[0]]) + Succeeding(fetches[1..])
  }

  /** Failed requests leave no trace: a run is the run of its successful requests. */
  lemma {:induction false} FailuresLeaveNoTrace<Row>(p: Progress<Row>, fetches: seq<Fetch<Row>>)
    ensures Steps(p, fetches) == Steps(p, Succeeding(fetches))
    decreases |fetches|
  {
    if fetches != [] {
      FailuresLeaveNoTrace(Step(p, fetches[0]), fetches[1..]);
      if fetches[0].answer.failure.None? {
        assert Succeeding(fetches)[1..] == Succeeding(fetches[1..]);
      } else {
        assert Succeeding(fetches) == Succeeding(fetches[1..]);
      }
    }
  }

  /** A server that answers with more rows than were asked for makes the run skip rows. */
  lemma LargeAnswersSkipRows()
    ensures exists rows: seq<int>, pos: PageState -> nat, fetches: seq<Fetch<int>> ::
      && pos([]) == 0
      && |fetches| == 2
      && Continues(rows, pos, [], fetches[0].answer)
      && Continues(rows, pos, fetches[0].answer.next, fetches[1].answer)
      && Steps(Start(10), fetches) == Progress([0, 2], Done(false)) && rows == [0, 1, 2]
  {
    var rows := [0, 1, 2];
    var pos := (state: PageState) => if state == [] then 0 else 2;
    var first := Fetch(1, Answer(1, [0, 1], [7], None));
    var second := Fetch(1, Answer(1, [2], [], None));
    var fetches: seq<Fetch<int>> := [first, second];
    var p := Step(Start(10), first);
    assert p == Progress([0], Open(Place([7], 9)));
    assert Step(p, second) == Progress([0, 2], Done(false));
    var rest: seq<Fetch<int>> := fetches[1..];
    assert rest == [second];
    assert Steps(p, rest) == Step(p, second);
    assert Steps(Start(10), fetches) == Progress([0, 2], Done(false));
    assert rows[0..2] == [0, 1] && rows[2..3] == [2];
    assert Continues(rows, pos, [], fetches[0].answer);
    assert Continues(rows, pos, fetches[0].answer.next, fetches[1].answer);
  }

  class CqlSession {
    const sql: string
    const keyspace: string
    var pageState: PageState
    var remaining: nat

    constructor (sql: string, keyspace: string, pageState: PageState, remaining: nat)
      ensures this.sql == sql && this.keyspace == keyspace && this.pageState == pageState && this.remaining == remaining
    {
      this.sql, this.keyspace, this.pageState, this.remaining := sql, keyspace, pageState, remaining;
    }

    ghost function Where(): Place
      reads this
    {
      Place(pageState, remaining)
    }
  }

  class CqlSessions<Row> {
    var sessions: map<nat, CqlSession>
    var nextSessionID: nat

    constructor ()
      ensures Valid() && sessions == map[] && nextSessionID == 0
    {
      sessions, nextSessionID := map[], 0;
    }

    ghost predicate Valid()
      reads this, sessions.Values
    {
      && (forall i :: i in sessions ==> i <= nextSessionID && sessions[i].remaining > 0)
      && (forall i, j :: i in sessions && j in sessions && i != j ==> sessions[i] != sessions[j])
    }

    /** executeQueryPage: the first page, and a session exactly while there is more. */
    method ExecutePage(sql: string, keyspace: string, requestedSize: int, fetchSize: int, maxRows: int, answer: Answer<Row>)
      returns (r: Result<Reply<Row>, string>)
      requires Valid()
      modifies this
      ensures Valid() && nextSessionID >= old(nextSessionID)
      ensures forall i :: i <= old(nextSessionID) ==> (i in sessions <==> i in old(sessions))
      ensures forall i :: i in old(sessions) ==> i in sessions && sessions[i] == old(sessions[i])
      ensures r.Ok? ==>
        Fills(r.value.rows, answer, if requestedSize > 0 then requestedSize else if fetchSize > 0 then fetchSize else 500,
              if maxRows > 0 then maxRows else 10000)
      ensures r.Ok? && r.value.hasMore ==>
        && nextSessionID in sessions
        && |r.value.rows| + sessions[nextSessionID].remaining == if maxRows > 0 then maxRows else 10000
      ensures var limit := if maxRows > 0 then maxRows else 10000;
        var size := if requestedSize > 0 then requestedSize else if fetchSize > 0 then fetchSize else 500;
        var after := Step(Start(limit), Fetch(size, answer));
        if answer.failure.Some? then r == Err(answer.failure.value) && nextSessionID == old(nextSessionID)
        else match after.run
          case Done(truncated) => r == Ok(Reply(after.rows, false, truncated, None)) && nextSessionID == old(nextSessionID)
          case Open(place) =>
            && nextSessionID == old(nextSessionID) + 1
            && r == Ok(Reply(after.rows, true, false, Some(nextSessionID)))
            && nextSessionID in sessions
            && sessions[nextSessionID].Where() == place
            && sessions[nextSessionID].sql == sql && sessions[nextSessionID].keyspace == keyspace
    {
      var size := OrDefault(if requestedSize <= 0 then fetchSize else requestedSize, DEFAULT_PAGE_SIZE);
      var remaining := OrDefault(maxRows, DEFAULT_MAX_ROWS);
      var page := FetchCqlPage(answer, size, remaining);
      if page.Err? {
        return Err(page.error);
      }
      var (rows, next) := page.value;
      assert [] + rows == rows;
      if next == [] || remaining - |rows| <= 0 {
        return Ok(Reply(rows, false, next != [] && remaining - |rows| <= 0, None));
      }
      nextSessionID := nextSessionID + 1;
      var state := new CqlSession(sql, keyspace, next, remaining - |rows|);
      sessions := sessions[nextSessionID := state];
      return Ok(Reply(rows, true, false, Some(nextSessionID)));
    }

    /** fetchQueryPage: the page at which the session stands; a failed request changes nothing. */
    method FetchPage(id: nat, requestedSize: int, answer: Answer<Row>) returns (r: Result<Reply<Row>, string>)
      requires Valid()
      modifies this`sessions, if id in sessions then {sessions[id]} else {}
      ensures Valid()
      ensures forall i :: i != id ==> (i in sessions <==> i in old(sessions))
      ensures forall i :: i in sessions ==> i in old(sessions) && sessions[i] == old(sessions[i])
      ensures id !in old(sessions) ==> r == Err("query session not found") && sessions == old(sessions)
      ensures r.Ok? ==>
        id in old(sessions) && Fills(r.value.rows, answer, if requestedSize > 0 then requestedSize else 500, old(sessions[id].remaining))
      ensures r.Ok? && r.value.hasMore ==>
        id in sessions && |r.value.rows| + sessions[id].remaining == old(sessions[id].remaining)
      ensures id in old(sessions) ==>
        var state, size := old(sessions[id]), if requestedSize > 0 then requestedSize else 500;
        var after := Step(Progress([], Open(old(state.Where()))), Fetch(size, answer));
        if answer.failure.Some? then
          r == Err(answer.failure.value) && sessions == old(sessions) && state.Where() == old(state.Where())
        else match after.run
          case Done(truncated) => r == Ok(Reply(after.rows, false, truncated, None)) && id !in sessions
          case Open(place) => r == Ok(Reply(after.rows, true, false, Some(id))) && id in sessions && state.Where() == place
    {
      if id !in sessions {
        return Err("query session not found");
      }
      var state := sessions[id];
      var page := FetchCqlPage(answer, OrDefault(requestedSize, DEFAULT_PAGE_SIZE), state.remaining);
      if page.Err? {
        return Err(page.error);
      }
      var (rows, next) := page.value;
      assert [] + rows == rows;
      state.remaining := state.remaining - |rows|;
      if next == [] || state.remaining <= 0 {
        sessions := sessions - {id};
        return Ok(Reply(rows, false, next != [] && state.remaining <= 0, None));
      }
      state.pageState := next;
      return Ok(Reply(rows, true, false, Some(id)));
    }

    /** closeQuerySession */
    method CloseSession(id: nat) returns (found: bool)
      requires Valid()
      modifies this`sessions
      ensures Valid() && found == (id in old(sessions)) && sessions == old(sessions) - {id}
    {
      found := id in sessions;
      sessions := sessions - {id};
    }
  }
}
