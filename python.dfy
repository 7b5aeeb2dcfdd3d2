/** Values as the Python client sees them: an optional value, the exceptions
    that can leave one of its methods, and what a call ends with. */
module Python {

  /** Python's `None` or a present value. */
  datatype Option<+T> = None | Some(value: T)

  /** The exceptions that can leave a ZamgData method.
      ClientError stands for every failure aiohttp or async_timeout raises
      (connection refused, timeout, premature disconnect). The one aiohttp
      failure that is also a ValueError, InvalidURL, cannot arise because
      both URLs are constants, so the client never catches them. OverflowError is what
      datetime arithmetic raises past year 9999. */
  datatype PyError = ValueError | TypeError | KeyError | ClientError | OverflowError

  /** How a Python call ends: it returns a value, it returns `None`
      (explicitly or by falling off its end), or it raises. */
  datatype Outcome<+T> = Returns(value: T) | ReturnsNone | Raises(error: PyError)

  /** A row of a CSV file as `csv.DictReader` yields it: column -> text. */
  type Row = map<string, string>

  /** `row.get(column)` */
  function Get(row: Row, column: string): (r: Option<string>)
    ensures r.Some? <==> column in row
    ensures r.Some? ==> r.value == row[column]
  {
    if column in row then Some(row[column]) else None
  }
}
