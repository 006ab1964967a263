/** Result sets of a query, and what reading one in one go gives. */
module ResultSets {
  import opened Common

  function OrDefault(requested: int, fallback: nat): (size: nat)
    requires fallback > 0
    ensures size > 0
  {
    if requested <= 0 then fallback else requested
  }

  /** A result set: its rows, and the error in place of a clean end if there is one. */
  datatype Source<+Row> = Source(rows: seq<Row>, failure: Option<string>)

  /** What one call for the next row gives. */
  datatype Fetched<+Row> = Row(row: Row) | End | Failed(error: string)

  /** Reading to the end of the rows. */
  function AtEnd<T>(failure: Option<string>, value: T): Result<T, string> {
    if failure.Some? then Err(failure.value) else Ok(value)
  }

  /** At most `limit` rows in one go, and whether there were more. */
  function OneShot<Row>(source: Source<Row>, limit: nat): Result<(seq<Row>, bool), string> {
    if |source.rows| > limit then Ok((source.rows[..limit], true)) else AtEnd(source.failure, (source.rows, false))
  }
}
