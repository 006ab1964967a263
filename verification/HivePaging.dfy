/** What paged reading of a Hive result set amounts to, next to reading it in one go
    (readQuerySessionPage and readSQLRows in agents/drivers/hive-go/query.go). */
module HivePaging {
  import opened Common
  import opened ResultSets

  const DEFAULT_MAX_ROWS := 10000
  const DEFAULT_PAGE_SIZE := 1000

  datatype Page<+Row> = Page(rows: seq<Row>, hasMore: bool, truncated: bool)

  /** The page of `size` rows that follows the first `delivered` of at most `limit` rows. */
  function PageAt<Row>(source: Source<Row>, limit: nat, delivered: nat, size: nat): Result<Page<Row>, string>
    requires delivered <= |source.rows| && delivered <= limit
  {
    var target := if delivered + size < limit then delivered + size else limit;
    if |source.rows| > target then
      Ok(Page(source.rows[delivered..target], target < limit, target == limit))
    else AtEnd(source.failure, Page(source.rows[delivered..], false, false))
  }

  datatype Outcome = Unfinished | Finished(truncated: bool) | Broken(error: string)

  /** Pages that were delivered, and how it ended. */
  datatype Reading<+Row> = Reading(pages: seq<Page<Row>>, outcome: Outcome)

  /** The pages a client gets that asks for these sizes until there is no more. */
  function Pages<Row>(source: Source<Row>, limit: nat, delivered: nat, sizes: seq<nat>): Reading<Row>
    requires delivered <= |source.rows| && delivered <= limit
    decreases |sizes|
  {
    if sizes == [] then Reading([], Unfinished)
    else
      match PageAt(source, limit, delivered, sizes[0])
      case Err(e) => Reading([], Broken(e))
      case Ok(page) =>
        if !page.hasMore then Reading([page], Finished(page.truncated))
        else After(page, Pages(source, limit, delivered + sizes[0], sizes[1..]))
  }

  function After<Row>(page: Page<Row>, rest: Reading<Row>): Reading<Row> {
    Reading([page] + rest.pages, rest.outcome)
  }

  function Rows<Row>(pages: seq<Page<Row>>): seq<Row> {
    if pages == [] then [] else pages[0].rows + Rows(pages[1..])
  }

  lemma RowsOfMore<Row>(page: Page<Row>, pages: seq<Page<Row>>)
    ensures Rows([page] + pages) == page.rows + Rows(pages)
  {
    assert ([page] + pages)[1..] == pages;
  }

  function Sum(sizes: seq<nat>): nat {
    if sizes == [] then 0 else sizes[0] + Sum(sizes[1..])
  }

  /** The last page is what is left of the one-shot read. */
  lemma LastPage<Row>(source: Source<Row>, limit: nat, delivered: nat, size: nat)
    requires delivered <= |source.rows| && delivered <= limit
    ensures match PageAt(source, limit, delivered, size)
      case Err(error) => OneShot(source, limit) == Err(error)
      case Ok(page) => !page.hasMore ==> Rest(source, limit, delivered, page.rows, page.truncated)
  {
    var page := PageAt(source, limit, delivered, size);
    if page.Ok? && page.value.truncated {
      assert source.rows[..limit][delivered..] == source.rows[delivered..limit];
    }
  }

  /** The one-shot read gives `rest` after its first `delivered` rows, and this flag. */
  predicate Rest<Row(==)>(source: Source<Row>, limit: nat, delivered: nat, rest: seq<Row>, truncated: bool) {
    match OneShot(source, limit)
    case Ok((rows, more)) => delivered <= |rows| && rows[delivered..] == rest && more == truncated
    case Err(_) => false
  }

  /** What a run from `delivered` on that asks for `asked` rows and gets `rows` amounts to. */
  ghost predicate Accounts<Row>(source: Source<Row>, limit: nat, delivered: nat, asked: nat, rows: seq<Row>, outcome: Outcome) {
    match outcome
    case Unfinished => delivered + asked <= |source.rows| && rows == source.rows[delivered..delivered + asked]
    case Finished(truncated) => Rest(source, limit, delivered, rows, truncated)
    case Broken(error) => OneShot(source, limit) == Err(error)
  }

  lemma AccountsExtend<Row>(
    source: Source<Row>, limit: nat, delivered: nat, size: nat, asked: nat, rest: seq<Row>, outcome: Outcome)
    requires delivered + size <= |source.rows| && Accounts(source, limit, delivered + size, asked, rest, outcome)
    ensures Accounts(source, limit, delivered, size + asked, source.rows[delivered..delivered + size] + rest, outcome)
  {
    match outcome
    case Unfinished =>
    case Broken(_) =>
    case Finished(_) =>
      var rows := OneShot(source, limit).value.0;
      assert rows <= source.rows;
      assert rows[delivered..] == rows[delivered..delivered + size] + rows[delivered + size..];
      assert rows[delivered..delivered + size] == source.rows[delivered..delivered + size];
  }

  lemma OnlyPageAccounts<Row>(source: Source<Row>, limit: nat, delivered: nat, asked: nat, page: Page<Row>)
    requires Rest(source, limit, delivered, page.rows, page.truncated)
    ensures Accounts(source, limit, delivered, asked, Rows([page]), Finished(page.truncated))
  {
    assert page.rows + [] == page.rows;
  }

  lemma NextPageAccounts<Row>(
    source: Source<Row>, limit: nat, delivered: nat, size: nat, asked: nat, page: Page<Row>, rest: Reading<Row>)
    requires delivered + size <= |source.rows| && page.rows == source.rows[delivered..delivered + size]
    requires Accounts(source, limit, delivered + size, asked, Rows(rest.pages), rest.outcome)
    ensures Accounts(source, limit, delivered, size + asked, Rows(After(page, rest).pages), rest.outcome)
  {
    AccountsExtend(source, limit, delivered, size, asked, Rows(rest.pages), rest.outcome);
    RowsOfMore(page, rest.pages);
  }

  /** From any point on, the pages are what is left of the one-shot read. */
  lemma {:induction false} PagesFrom<Row>(source: Source<Row>, limit: nat, delivered: nat, sizes: seq<nat>)
    requires delivered <= |source.rows| && delivered <= limit
    ensures Accounts(source, limit, delivered, Sum(sizes), Rows(Pages(source, limit, delivered, sizes).pages),
                     Pages(source, limit, delivered, sizes).outcome)
    decreases |sizes|
  {
    if sizes != [] {
      var size, later := sizes[0], sizes[1..];
      LastPage(source, limit, delivered, size);
      match PageAt(source, limit, delivered, size)
      case Err(_) =>
      case Ok(page) =>
        if !page.hasMore {
          OnlyPageAccounts(source, limit, delivered, Sum(sizes), page);
        } else {
          PagesFrom(source, limit, delivered + size, later);
          NextPageAccounts(source, limit, delivered, size, Sum(later), page, Pages(source, limit, delivered + size, later));
        }
    }
  }

  /** Whatever the page sizes, the pages put together are the rows of the one-shot read, the last page says
      whether rows were cut off as the one-shot read does, and the same reads fail with the same error. */
  lemma PagesEqualOneShot<Row>(source: Source<Row>, limit: nat, sizes: seq<nat>)
    ensures var reading := Pages(source, limit, 0, sizes);
      match reading.outcome
      case Unfinished => Rows(reading.pages) <= source.rows
      case Finished(truncated) => OneShot(source, limit) == Ok((Rows(reading.pages), truncated))
      case Broken(error) => OneShot(source, limit) == Err(error)
  {
    PagesFrom(source, limit, 0, sizes);
  }

  /** A page that promises more is as large as was asked for and says nothing was cut off. Every page
      after one that promises more has a row. */
  lemma PageShape<Row>(source: Source<Row>, limit: nat, delivered: nat, size: nat)
    requires delivered <= |source.rows| && delivered <= limit && PageAt(source, limit, delivered, size).Ok?
    ensures var page := PageAt(source, limit, delivered, size).value;
      && (page.hasMore ==> |page.rows| == size && !page.truncated && Left(source, limit, delivered + size))
      && (Left(source, limit, delivered) && size > 0 ==> |page.rows| > 0)
  {
  }

  /** The page has at most the rows that were asked for, or a thousand if that was no number of rows, and exactly so many
      if there is more. */
  predicate Fills<Row>(page: Page<Row>, requested: int) {
    && (requested > 0 ==> |page.rows| <= requested && (page.hasMore ==> |page.rows| == requested))
    && (requested <= 0 ==> |page.rows| <= 1000 && (page.hasMore ==> |page.rows| == 1000))
  }

  lemma PageFills<Row>(source: Source<Row>, limit: nat, delivered: nat, requested: int, size: nat)
    requires delivered <= |source.rows| && delivered <= limit && PageAt(source, limit, delivered, size).Ok?
    requires (requested > 0 ==> size == requested) && (requested <= 0 ==> size == 1000)
    ensures var page := PageAt(source, limit, delivered, size).value;
      Fills(page, requested) && delivered + |page.rows| <= limit
  {
    PageShape(source, limit, delivered, size);
  }

  /** Pages number as many as were asked for at most, none is larger than asked for, and all of them together stay
      within the limit. */
  lemma {:induction false} PagesWithin<Row>(source: Source<Row>, limit: nat, delivered: nat, sizes: seq<nat>)
    requires delivered <= |source.rows| && delivered <= limit
    ensures var pages := Pages(source, limit, delivered, sizes).pages;
      && |pages| <= |sizes| && delivered + |Rows(pages)| <= limit
      && forall i :: 0 <= i < |pages| ==> |pages[i].rows| <= sizes[i]
    decreases |sizes|
  {
    if sizes != [] && PageAt(source, limit, delivered, sizes[0]).Ok? {
      var page := PageAt(source, limit, delivered, sizes[0]).value;
      PageShape(source, limit, delivered, sizes[0]);
      if page.hasMore {
        PagesWithin(source, limit, delivered + sizes[0], sizes[1..]);
        RowsOfMore(page, Pages(source, limit, delivered + sizes[0], sizes[1..]).pages);
      } else {
        RowsOfMore(page, []);
        assert [page] + [] == [page];
      }
    }
  }

  /** Every page has a row, the first at least if `first` says so. */
  ghost predicate NonEmpty<Row>(pages: seq<Page<Row>>, first: bool) {
    forall i :: 0 <= i < |pages| && (i > 0 || first) ==> |pages[i].rows| > 0
  }

  lemma NonEmptyCons<Row>(page: Page<Row>, rest: seq<Page<Row>>, first: bool)
    requires NonEmpty(rest, true) && (first ==> |page.rows| > 0)
    ensures NonEmpty([page] + rest, first)
  {
    var pages := [page] + rest;
    forall i | 0 <= i < |pages| && (i > 0 || first)
      ensures |pages[i].rows| > 0
    {
      if i > 0 {
        assert pages[i] == rest[i - 1];
      }
    }
  }

  /** There is something to deliver behind the first `delivered` rows. */
  predicate Left<Row>(source: Source<Row>, limit: nat, delivered: nat) {
    delivered < |source.rows| && delivered < limit
  }

  /** Every page after the first has a row. */
  lemma {:induction false} LaterPagesHaveRows<Row>(source: Source<Row>, limit: nat, delivered: nat, sizes: seq<nat>)
    requires delivered <= |source.rows| && delivered <= limit && forall i :: 0 <= i < |sizes| ==> sizes[i] > 0
    ensures NonEmpty(Pages(source, limit, delivered, sizes).pages, Left(source, limit, delivered))
    decreases |sizes|
  {
    if sizes != [] && PageAt(source, limit, delivered, sizes[0]).Ok? {
      PageShape(source, limit, delivered, sizes[0]);
      var page := PageAt(source, limit, delivered, sizes[0]).value;
      if page.hasMore {
        var next, later := delivered + sizes[0], sizes[1..];
        LaterPagesHaveRows(source, limit, next, later);
        NonEmptyCons(page, Pages(source, limit, next, later).pages, Left(source, limit, delivered));
      }
    }
  }

  /** So asking for rows again and again comes to an end: each page that promises more uses up a row of the limit
      and of the result set. */
  lemma {:induction false} FetchingEnds<Row>(source: Source<Row>, limit: nat, delivered: nat, sizes: seq<nat>)
    requires delivered <= |source.rows| && delivered <= limit && forall i :: 0 <= i < |sizes| ==> sizes[i] > 0
    ensures Pages(source, limit, delivered, sizes).outcome.Unfinished? && sizes != [] ==> Left(source, limit, delivered + |sizes|)
    decreases |sizes|
  {
    if sizes != [] && PageAt(source, limit, delivered, sizes[0]).Ok? {
      PageShape(source, limit, delivered, sizes[0]);
      if PageAt(source, limit, delivered, sizes[0]).value.hasMore {
        FetchingEnds(source, limit, delivered + sizes[0], sizes[1..]);
      }
    }
  }

  /** A result set read under a context that is seen to be done right after a row arrived: `row` counts it. */
  datatype Cancellation = Cancellation(row: nat, error: string)

  /** Such a read is one of a result set that breaks off after that row. */
  function Visible<Row>(source: Source<Row>, cancel: Option<Cancellation>): (seen: Source<Row>)
    ensures seen.rows <= source.rows
  {
    if cancel.Some? && cancel.value.row <= |source.rows| then
      Source(source.rows[..cancel.value.row], Some(cancel.value.error))
    else source
  }

  /** A cancelled context can only turn a page into its error: it never changes the rows of a page. */
  lemma CancellationOnlyFails<Row>(source: Source<Row>, cancel: Option<Cancellation>, limit: nat, delivered: nat, size: nat)
    requires delivered <= |Visible(source, cancel).rows| && delivered <= limit
    ensures var page := PageAt(Visible(source, cancel), limit, delivered, size);
      page == PageAt(source, limit, delivered, size) || (cancel.Some? && page == Err(cancel.value.error))
  {
    var seen := Visible(source, cancel);
    var target := if delivered + size < limit then delivered + size else limit;
    if |seen.rows| > target {
      assert seen.rows[delivered..target] == source.rows[delivered..target];
    }
  }

  /** The values are the rows from `start` on. */
  ghost predicate Span<Row>(rows: seq<Row>, start: nat, values: seq<Row>) {
    start + |values| <= |rows| && forall i :: 0 <= i < |values| ==> values[i] == rows[start + i]
  }

  lemma SpanIsSlice<Row>(rows: seq<Row>, start: nat, values: seq<Row>)
    requires Span(rows, start, values)
    ensures values == rows[start..start + |values|]
  {
  }

  lemma SpanGrows<Row>(rows: seq<Row>, start: nat, values: seq<Row>, row: Row)
    requires Span(rows, start, values) && start + |values| < |rows| && row == rows[start + |values|]
    ensures Span(rows, start, values + [row])
  {
  }

  /** A page can stop where the rows end, */
  lemma PageEnds<Row>(source: Source<Row>, cancel: Option<Cancellation>, limit: nat, start: nat, size: nat, values: seq<Row>)
    requires Span(source.rows, start, values) && start + |values| == |source.rows| && |values| <= size
    requires |source.rows| <= limit && (cancel.Some? ==> |source.rows| < cancel.value.row)
    ensures PageAt(Visible(source, cancel), limit, start, size) == AtEnd(source.failure, Page(values, false, false))
  {
    SpanIsSlice(source.rows, start, values);
    assert source.rows[start..] == source.rows[start..|source.rows|];
  }

  /** at the cancellation, */
  lemma PageCancelled<Row>(source: Source<Row>, cancel: Cancellation, limit: nat, start: nat, size: nat)
    requires start <= cancel.row <= |source.rows| && cancel.row <= start + size && cancel.row <= limit
    ensures PageAt(Visible(source, Some(cancel)), limit, start, size) == Err(cancel.error)
  {
  }

  /** or when it is full and a row is left. */
  lemma PageFull<Row>(source: Source<Row>, cancel: Option<Cancellation>, limit: nat, start: nat, size: nat, values: seq<Row>)
    requires Span(source.rows, start, values) && start + |values| < |source.rows|
    requires (|values| == size && start + size <= limit) || (|values| <= size && start + |values| == limit)
    requires cancel.Some? ==> start + |values| < cancel.value.row
    ensures PageAt(Visible(source, cancel), limit, start, size)
         == Ok(Page(values, start + |values| < limit, start + |values| == limit))
  {
    SpanIsSlice(source.rows, start, values);
    var seen, end := Visible(source, cancel), start + |values|;
    assert seen.rows[start..end] == source.rows[start..end];
  }
}
