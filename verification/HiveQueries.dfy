/** The Hive agent's result cursors, paged query sessions and the table that holds them
    (agents/drivers/hive-go/query.go). */
module HiveQueries {
  import opened Common
  import opened HivePaging
  import opened ResultSets

  /** querySessionIdleTime, in milliseconds. */
  const IDLE_TIME := 10 * 60 * 1000

  class Cursor<Row> {
    const source: Source<Row>
    var next: nat
    var closed: bool

    constructor (source: Source<Row>)
      ensures this.source == source && next == 0 && !closed
    {
      this.source, next, closed := source, 0, false;
    }

    ghost predicate Valid()
      reads this
    {
      next <= |source.rows|
    }

    /** nextSQLRow */
    method Next() returns (fetched: Fetched<Row>)
      requires Valid() && !closed
      modifies this`next
      ensures Valid()
      ensures if old(next) < |source.rows| then fetched == Fetched.Row(source.rows[old(next)]) && next == old(next) + 1
              else next == old(next) && fetched == if source.failure.Some? then Failed(source.failure.value) else End
    {
      if next < |source.rows| {
        fetched := Fetched.Row(source.rows[next]);
        next := next + 1;
      } else if source.failure.Some? {
        fetched := Failed(source.failure.value);
      } else {
        fetched := End;
      }
    }

    method Close()
      modifies this`closed
      ensures closed
    {
      closed := true;
    }
  }

  /** readSQLRows: the rows up to the limit in one go. */
  method ReadRows<Row>(rows: Cursor<Row>, limit: nat) returns (r: Result<(seq<Row>, bool), string>)
    requires rows.Valid() && !rows.closed && rows.next == 0
    modifies rows`next
    ensures r == OneShot(rows.source, limit)
  {
    var values: seq<Row> := [];
    while |values| < limit
      invariant rows.Valid() && |values| == rows.next && values == rows.source.rows[..rows.next] && |values| <= limit
    {
      var fetched := rows.Next();
      match fetched
      case Failed(error) => return Err(error);
      case End =>
        assert values == rows.source.rows;
        return Ok((values, false));
      case Row(row) => values := values + [row];
    }
    var extra := rows.Next();
    match extra
    case Failed(error) => return Err(error);
    case End =>
      assert values == rows.source.rows;
      return Ok((values, false));
    case Row(_) => return Ok((values, true));
  }

  class QuerySession<Row> {
    const rows: Cursor<Row>
    var pending: Option<Row>
    var remaining: nat
    var lastAccessed: int
    ghost var limit: nat

    constructor (rows: Cursor<Row>, maxRows: nat, now: int)
      requires rows.next == 0
      ensures this.rows == rows && pending == None && remaining == maxRows == limit && lastAccessed == now
    {
      this.rows, pending, remaining, lastAccessed, limit := rows, None, maxRows, now, maxRows;
    }

    /** The row held back is the one the cursor gave last, and the budget is for the rows not yet delivered. */
    ghost predicate Valid()
      reads this, rows
    {
      && rows.Valid()
      && (pending.Some? ==> rows.next > 0 && pending.value == rows.source.rows[rows.next - 1] && remaining > 0)
      && limit == Delivered() + remaining
    }

    ghost function Delivered(): int
      reads this, rows
    {
      if pending.Some? then rows.next - 1 else rows.next
    }

    /** The row held back opens the next page. */
    method TakePending() returns (values: seq<Row>)
      requires Valid()
      modifies `pending, `remaining
      ensures pending.None? && limit == rows.next + remaining && |values| <= 1
      ensures rows.next == old(Delivered()) + |values| && Span(rows.source.rows, old(Delivered()), values)
    {
      values := [];
      if pending.Some? && remaining > 0 {
        values := values + [pending.value];
        pending := None;
        remaining := remaining - 1;
      }
    }

    /** readQuerySessionPage */
    method ReadPage(now: int, pageSize: nat, cancel: Option<Cancellation>) returns (r: Result<Page<Row>, string>)
      requires Valid() && !rows.closed && pageSize > 0
      requires cancel.Some? ==> cancel.value.row > rows.next
      modifies this, rows`next
      ensures r == PageAt(Visible(rows.source, cancel), old(limit), old(Delivered()), pageSize)
      ensures lastAccessed == now && limit == old(limit) && rows.Valid()
      ensures r.Ok? && r.value.hasMore ==> Valid() && Delivered() == old(Delivered()) + pageSize
    {
      lastAccessed := now;
      ghost var start := Delivered();
      var values := TakePending();
      var stopped: Option<Result<Page<Row>, string>>;
      stopped, values := Fill(values, pageSize, cancel, start);
      if stopped.Some? {
        return stopped.value;
      }
      if rows.next < |rows.source.rows| {
        PageFull(rows.source, cancel, limit, start, pageSize, values);
      } else {
        PageEnds(rows.source, cancel, limit, start, pageSize, values);
      }
      var ahead := rows.Next();
      match ahead
      case Failed(error) => return Err(error);
      case End => return Ok(Page(values, false, false));
      case Row(row) =>
        if remaining == 0 {
          return Ok(Page(values, false, true));
        }
        pending := Some(row);
        return Ok(Page(values, true, false));
    }

    /** The loop of readQuerySessionPage: rows until the page is full, or what stopped it before. */
    method Fill(first: seq<Row>, pageSize: nat, cancel: Option<Cancellation>, ghost start: nat)
      returns (stopped: Option<Result<Page<Row>, string>>, values: seq<Row>)
      requires rows.Valid() && !rows.closed && pending.None? && |first| <= pageSize
      requires rows.next == start + |first| && limit == rows.next + remaining && Span(rows.source.rows, start, first)
      requires cancel.Some? ==> rows.next < cancel.value.row
      modifies `remaining, rows`next
      ensures rows.Valid() && limit == rows.next + remaining
      ensures stopped.Some? ==> stopped.value == PageAt(Visible(rows.source, cancel), limit, start, pageSize)
      ensures stopped.Some? && stopped.value.Ok? ==> !stopped.value.value.hasMore
      ensures stopped.None? ==>
        && rows.next == start + |values| && Span(rows.source.rows, start, values)
        && |values| <= pageSize && (|values| == pageSize || remaining == 0)
        && (cancel.Some? ==> rows.next < cancel.value.row)
    {
      stopped, values := None, first;
      while |values| < pageSize && remaining > 0
        invariant rows.Valid() && |values| <= pageSize && limit == rows.next + remaining
        invariant rows.next == start + |values| && Span(rows.source.rows, start, values)
        invariant cancel.Some? ==> rows.next < cancel.value.row
        decreases remaining
      {
        var fetched := rows.Next();
        match fetched
        case Failed(error) =>
          PageEnds(rows.source, cancel, limit, start, pageSize, values);
          return Some(Err(error)), values;
        case End =>
          PageEnds(rows.source, cancel, limit, start, pageSize, values);
          return Some(Ok(Page(values, false, false))), values;
        case Row(row) =>
          SpanGrows(rows.source.rows, start, values, row);
          values := values + [row];
          remaining := remaining - 1;
          if cancel.Some? && rows.next >= cancel.value.row {
            PageCancelled(rows.source, cancel.value, limit, start, pageSize);
            return Some(Err(cancel.value.error)), values;
          }
      }
    }
  }

  /** How the statement of a paged query went before its first page is read. */
  datatype Executed<Row> =
    | Refused(error: string)
    | NoResultSet(affected: int)
    | NoMetadata(broken: Cursor<Row>, error: string)
    | ResultSet(rows: Cursor<Row>)
  {
    ghost function Cursors(): set<Cursor<Row>> {
      match this
      case NoMetadata(broken, _) => {broken}
      case ResultSet(rows) => {rows}
      case _ => {}
    }
  }

  datatype Reply<+Row> = Reply(page: Page<Row>, session: Option<nat>, affected: int)

  class QueryTable<Row> {
    var sessions: map<nat, QuerySession<Row>>
    var nextSessionID: nat
    /** Every result set that a query opened, and the session it was opened for. */
    ghost var owner: map<Cursor<Row>, nat>

    constructor ()
      ensures Valid() && sessions == map[] && nextSessionID == 0 && owner == map[]
    {
      sessions, nextSessionID, owner := map[], 0, map[];
    }

    /** The table is in order, except that the session `but` may not be able to go on. */
    ghost predicate ValidBut(but: nat)
      reads this, sessions.Values, owner.Keys
    {
      && (forall i :: i in sessions ==> 0 < i <= nextSessionID && Holds(i) && (i != but ==> sessions[i].Valid()))
      && (forall c :: c in owner && !c.closed ==> owner[c] in sessions && sessions[owner[c]].rows == c)
    }

    ghost predicate Holds(id: nat)
      requires id in sessions
      reads this, sessions.Values, owner.Keys
    {
      sessions[id].rows in owner && owner[sessions[id].rows] == id && !sessions[id].rows.closed
    }

    /** Sessions share nothing and can go on, and a result set is open exactly while a session holds it. */
    ghost predicate Valid()
      reads this, sessions.Values, owner.Keys
    {
      ValidBut(0)
    }

    /** closeQuerySession */
    method CloseSession(id: nat) returns (found: bool)
      requires ValidBut(id)
      modifies this`sessions, (if id in sessions then {sessions[id].rows} else {})`closed
      ensures Valid()
      ensures found == (id in old(sessions)) && sessions == old(sessions) - {id}
      ensures found ==> old(sessions[id]).rows.closed
    {
      if id !in sessions {
        return false;
      }
      var state := sessions[id];
      sessions := sessions - {id};
      state.rows.Close();
      return true;
    }

    ghost predicate Idle(id: nat, now: int)
      requires id in sessions
      reads this, sessions.Values
    {
      now - sessions[id].lastAccessed >= 600000
    }

    method FindIdle(now: int) returns (expired: set<nat>)
      ensures expired == set i | i in sessions && Idle(i, now)
    {
      expired := {};
      var todo := sessions.Keys;
      while todo != {}
        invariant todo <= sessions.Keys
        invariant expired == set i | i in sessions && i !in todo && Idle(i, now)
        decreases todo
      {
        var id :| id in todo;
        todo := todo - {id};
        if now - sessions[id].lastAccessed >= IDLE_TIME {
          expired := expired + {id};
        }
      }
    }

    method CloseEach(ids: set<nat>)
      requires Valid() && ids <= sessions.Keys
      modifies this`sessions, (set i | i in sessions :: sessions[i].rows)`closed
      ensures Valid() && sessions == old(sessions) - ids
    {
      var left := ids;
      while left != {}
        invariant Valid() && left <= ids && left <= sessions.Keys
        invariant sessions == old(sessions) - (ids - left)
        decreases left
      {
        var id :| id in left;
        left := left - {id};
        var _ := CloseSession(id);
        assert sessions == old(sessions) - (ids - left);
      }
    }

    /** expireIdleQuerySessions */
    method ExpireIdle(now: int) returns (count: nat)
      requires Valid()
      modifies this`sessions, (set i | i in sessions :: sessions[i].rows)`closed
      ensures Valid()
      ensures forall i :: i in sessions <==> i in old(sessions) && !old(Idle(i, now))
      ensures forall i :: i in sessions ==> sessions[i] == old(sessions[i])
    {
      var expired := FindIdle(now);
      count := |expired|;
      CloseEach(expired);
    }

    /** closeAllQuerySessions */
    method CloseAll()
      requires Valid()
      modifies this`sessions, (set i | i in sessions :: sessions[i].rows)`closed
      ensures Valid() && sessions == map[]
      ensures forall c :: c in owner ==> c.closed
    {
      CloseEach(sessions.Keys);
    }

    /** The next page of a session that the table holds; the session stays exactly while there is more. */
    method ReadSession(id: nat, size: nat, now: int, cancel: Option<Cancellation>) returns (r: Result<Page<Row>, string>)
      requires Valid() && id in sessions && size > 0
      requires cancel.Some? ==> cancel.value.row > sessions[id].rows.next
      modifies this`sessions, sessions[id], sessions[id].rows
      ensures Valid()
      ensures var state := old(sessions[id]);
        && r == PageAt(Visible(state.rows.source, cancel), old(state.limit), old(state.Delivered()), size)
        && (if r.Ok? && r.value.hasMore
            then sessions == old(sessions) && GoesOn(state, old(state.limit), old(state.Delivered()) + size, now)
            else sessions == old(sessions) - {id} && state.rows.closed)
    {
      var state := sessions[id];
      r := state.ReadPage(now, size, cancel);
      if r.Err? || !r.value.hasMore {
        var _ := CloseSession(id);
      }
    }

    ghost predicate GoesOn(state: QuerySession<Row>, limit: nat, delivered: int, now: int)
      reads state, state.rows
    {
      state.Valid() && state.limit == limit && state.Delivered() == delivered && state.lastAccessed == now
    }

    /** fetchQueryPage */
    method FetchPage(id: nat, requested: int, now: int) returns (r: Result<Reply<Row>, string>)
      requires Valid()
      modifies this`sessions, (set i | i in sessions :: sessions[i].rows)`closed
      modifies if id in sessions then {sessions[id], sessions[id].rows} else {}
      ensures Valid()
      ensures forall i :: i != id ==> (i in sessions <==> i in old(sessions) && !old(Idle(i, now)))
      ensures forall i :: i in sessions ==> i in old(sessions) && sessions[i] == old(sessions[i])
      ensures if id !in old(sessions) || old(Idle(id, now)) then r == Err("query session not found") && id !in sessions
        else
          var state, size := old(sessions[id]), if requested > 0 then requested else 1000;
          match PageAt(state.rows.source, old(state.limit), old(state.Delivered()), size)
          case Err(error) => r == Err(error) && id !in sessions
          case Ok(page) =>
            && r == Ok(Reply(page, if page.hasMore then Some(id) else None, 0))
            && (id in sessions <==> page.hasMore)
            && (page.hasMore ==> GoesOn(state, old(state.limit), old(state.Delivered()) + size, now))
            && Fills(page, requested) && old(state.Delivered()) + |page.rows| <= old(state.limit)
    {
      var _ := ExpireIdle(now);
      if id !in sessions {
        return Err("query session not found");
      }
      var size := OrDefault(requested, DEFAULT_PAGE_SIZE);
      ghost var source, limit, delivered := sessions[id].rows.source, sessions[id].limit, sessions[id].Delivered();
      var page := ReadSession(id, size, now, None);
      if page.Ok? {
        PageFills(source, limit, delivered, requested, size);
      }
      match page
      case Err(error) => return Err(error);
      case Ok(p) => return Ok(Reply(p, if p.hasMore then Some(id) else None, 0));
    }

    /** A session under a number that no earlier session had. */
    method OpenSession(rows: Cursor<Row>, maxRows: nat, now: int) returns (id: nat)
      requires Valid() && rows !in owner && rows.next == 0 && !rows.closed
      modifies this
      ensures Valid()
      ensures id == old(nextSessionID) + 1 == nextSessionID && id !in old(sessions)
      ensures id in sessions && sessions == old(sessions)[id := sessions[id]] && owner == old(owner)[rows := id]
      ensures fresh(sessions[id]) && sessions[id].rows == rows && GoesOn(sessions[id], maxRows, 0, now)
    {
      nextSessionID := nextSessionID + 1;
      id := nextSessionID;
      var state := new QuerySession(rows, maxRows, now);
      sessions := sessions[id := state];
      owner := owner[rows := id];
    }

    /** The first page of a result set, which the newest session holds exactly while there is more. */
    ghost predicate FirstReply(r: Result<Reply<Row>, string>, rows: Cursor<Row>, limit: nat, size: nat, now: int,
                               cancel: Option<Cancellation>)
      reads this, sessions.Values, rows
    {
      match PageAt(Visible(rows.source, cancel), limit, 0, size)
      case Err(error) => r == Err(error) && nextSessionID !in sessions && rows.closed
      case Ok(page) =>
        && r == Ok(Reply(page, if page.hasMore then Some(nextSessionID) else None, 0))
        && if page.hasMore
           then nextSessionID in sessions && sessions[nextSessionID].rows == rows
             && GoesOn(sessions[nextSessionID], limit, size, now)
           else nextSessionID !in sessions && rows.closed
    }

    method FirstPage(rows: Cursor<Row>, limit: nat, size: nat, now: int, cancel: Option<Cancellation>)
      returns (r: Result<Reply<Row>, string>)
      requires Valid() && rows !in owner && rows.next == 0 && !rows.closed && size > 0
      requires cancel.Some? ==> cancel.value.row > 0
      modifies this, rows
      ensures Valid() && nextSessionID == old(nextSessionID) + 1
      ensures sessions - {nextSessionID} == old(sessions)
      ensures FirstReply(r, rows, limit, size, now, cancel)
      ensures r.Ok? ==> |r.value.page.rows| <= size && (r.value.page.hasMore ==> |r.value.page.rows| == size)
      ensures r.Ok? ==> |r.value.page.rows| <= limit
    {
      var id := OpenSession(rows, limit, now);
      assert sessions - {id} == old(sessions);
      var page := ReadSession(id, size, now, cancel);
      if page.Ok? {
        PageShape(Visible(rows.source, cancel), limit, 0, size);
      }
      match page
      case Err(error) => return Err(error);
      case Ok(p) => return Ok(Reply(p, if p.hasMore then Some(id) else None, 0));
    }

    ghost predicate Untouched(executed: Executed<Row>)
      reads this, executed.Cursors()
    {
      forall c :: c in executed.Cursors() ==> c !in owner && c.next == 0 && !c.closed
    }

    /** executeQueryPage, for a statement that was trimmed; `cancel` is the query's own context. */
    method ExecutePage(sql: string, executed: Executed<Row>, requestedRows: int, requestedSize: int, now: int,
                       cancel: Option<Cancellation>)
      returns (r: Result<Reply<Row>, string>)
      requires Valid() && Untouched(executed) && (cancel.Some? ==> cancel.value.row > 0)
      modifies this, (set i | i in sessions :: sessions[i].rows)`closed, executed.Cursors()
      ensures Valid() && nextSessionID >= old(nextSessionID)
      ensures forall i :: i <= old(nextSessionID) ==> (i in sessions <==> i in old(sessions) && !old(Idle(i, now)))
      ensures forall i :: i in sessions && i <= old(nextSessionID) ==> sessions[i] == old(sessions[i])
      ensures sql == "" ==> r == Err("SQL is required")
      ensures sql != "" ==>
        match executed
        case Refused(error) => r == Err(error) && nextSessionID == old(nextSessionID)
        case NoResultSet(affected) => r == Ok(Reply(Page([], false, false), None, affected)) && nextSessionID == old(nextSessionID)
        case NoMetadata(broken, error) => r == Err(error) && broken.closed && nextSessionID == old(nextSessionID)
        case ResultSet(rows) =>
          && nextSessionID == old(nextSessionID) + 1
          && FirstReply(r, rows, if requestedRows > 0 then requestedRows else 10000,
                        if requestedSize > 0 then requestedSize else 1000, now, cancel)
          && (r.Ok? ==> Fills(r.value.page, requestedSize))
          && (r.Ok? ==> |r.value.page.rows| <= if requestedRows > 0 then requestedRows else 10000)
    {
      var _ := ExpireIdle(now);
      if sql == "" {
        return Err("SQL is required");
      }
      match executed
      case Refused(error) => return Err(error);
      case NoResultSet(affected) => return Ok(Reply(Page([], false, false), None, affected));
      case NoMetadata(broken, error) =>
        broken.Close();
        return Err(error);
      case ResultSet(rows) =>
        var limit, size := OrDefault(requestedRows, DEFAULT_MAX_ROWS), OrDefault(requestedSize, DEFAULT_PAGE_SIZE);
        r := FirstPage(rows, limit, size, now, cancel);
    }
  }
}
