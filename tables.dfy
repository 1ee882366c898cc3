/** The in-memory tables both front ends work on: a header of column labels and
    rows of cells, where a cell is `None` when the spreadsheet leaves it empty. */
module Tables {
  import opened Wrappers

  type Cell = Option<string>
  type Row = seq<Cell>

  datatype Table = Table(columns: seq<string>, rows: seq<Row>) {
    /** Every row has one cell per column, as in a pandas DataFrame. */
    predicate Rectangular() {
      forall row <- rows :: |row| == |columns|
    }
  }

  type Frame = t: Table | t.Rectangular() witness Table([], [])

  /** `fillna("").astype(str)`: a missing cell reads as the empty text. */
  function CellText(c: Cell): string {
    match c
    case None => ""
    case Some(s) => s
  }

  /** `pd.to_numeric(..., errors="coerce")` followed by `astype("Int64")` on
      one text value: the integer it denotes, or `None` when coercion fails. */
  type IdParser = string -> Option<int>

  /** Coercion of a cell: a missing cell never yields an identifier. */
  function ParseId(parse: IdParser, c: Cell): (r: Option<int>)
    ensures c.None? ==> r.None?
  {
    match c
    case None => None
    case Some(s) => parse(s)
  }

  /** The exceptions that abort a run, each with the data its message reports. */
  datatype Failure =
    | ProtectedDocument                                      // ValueError: sensitivity label or IRM
    | Unreadable(reason: string)                             // the spreadsheet decoder's own exception
    | MissingColumns(missing: seq<string>, available: seq<string>)  // KeyError on the sales table
    | TooFewPeopleColumns(actual: nat)                       // ValueError on the people table
    | NoInputFile(kind: string)                             // FileNotFoundError from auto-discovery

  /** A decoder's outcome as the pipeline sees it: its exception is re-raised. */
  function AsRead(decoded: Result<Frame, string>): (r: Result<Frame, Failure>)
    ensures r.Success? <==> decoded.Success?
    ensures r.Success? ==> r.value == decoded.value
    ensures r.Failure? ==> r.error == Unreadable(decoded.error)
  {
    match decoded
    case Success(t) => Success(t)
    case Failure(e) => Failure(Unreadable(e))
  }
}
