/** The script: choosing the two input files (a picked file for each, or
    the newest match in the working directory), then the shared pipeline with
    the eight-column layout on plain `pd.read_excel` results. */
module ReturnUpdate {
  import opened Wrappers
  import opened Tables
  import opened Reconcile

  /** A candidate file found by auto-discovery and its modification time. */
  datatype FileStat = FileStat(path: string, mtime: int)

  const SalesKind := "Sales Compensation Report"
  const PeopleKind := "People"

  /** `max(files, key=mtime)`: the first file whose modification time no
      other file exceeds. */
  function LatestIndex(files: seq<FileStat>): (k: nat)
    requires |files| > 0
    ensures k < |files|
    ensures forall j :: 0 <= j < |files| ==> files[j].mtime <= files[k].mtime
    ensures forall j :: 0 <= j < k ==> files[j].mtime < files[k].mtime
  {
    if |files| == 1 then 0
    else
      var n := |files| - 1;
      var k := LatestIndex(files[..n]);
      assert forall j :: 0 <= j < n ==> files[..n][j] == files[j];
      if files[k].mtime < files[n].mtime then n else k
  }

  /** `_pick_latest`: no candidate raises `FileNotFoundError`; a single
      candidate is taken as it is; otherwise the newest, the first of equals. */
  function PickLatest(files: seq<FileStat>, kind: string): (r: Result<string, Failure>)
    ensures r.Failure? <==> |files| == 0
    ensures r.Failure? ==> r.error == NoInputFile(kind)
    ensures |files| == 1 ==> r == Success(files[0].path)
    ensures r.Success? ==>
      exists k :: && 0 <= k < |files| && files[k].path == r.value
                  && (forall j :: 0 <= j < |files| ==> files[j].mtime <= files[k].mtime)
                  && (forall j :: 0 <= j < k ==> files[j].mtime < files[k].mtime)
  {
    if |files| == 0 then Failure(NoInputFile(kind))
    else if |files| == 1 then Success(files[0].path)
    else Success(files[LatestIndex(files)].path)
  }

  /** `_resolve_input_paths`: `None` is a cancelled picker. The two picks are
      used only when both were made; otherwise both paths come from
      auto-discovery, the sales report first. */
  function ResolveInputPaths(salesPick: Option<string>, peoplePick: Option<string>,
                             salesFiles: seq<FileStat>, peopleFiles: seq<FileStat>): (r: Result<(string, string), Failure>)
    ensures salesPick.Some? && peoplePick.Some? ==> r == Success((salesPick.value, peoplePick.value))
    ensures !(salesPick.Some? && peoplePick.Some?) ==>
      && (|salesFiles| == 0 ==> r == Failure(NoInputFile(SalesKind)))
      && (|salesFiles| > 0 && |peopleFiles| == 0 ==> r == Failure(NoInputFile(PeopleKind)))
      && (r.Success? <==> |salesFiles| > 0 && |peopleFiles| > 0)
      && (r.Success? ==> PickLatest(salesFiles, SalesKind) == Success(r.value.0)
                         && PickLatest(peopleFiles, PeopleKind) == Success(r.value.1))
  {
    if salesPick.Some? && peoplePick.Some? then Success((salesPick.value, peoplePick.value))
    else
      var salesPath :- PickLatest(salesFiles, SalesKind);
      var peoplePath :- PickLatest(peopleFiles, PeopleKind);
      Success((salesPath, peoplePath))
  }

  /** The sales report carries three title rows above its header. */
  const SalesSkipRows := 3

  /** `main` without its output: `readExcel(path, skiprows)` stands for
      `pd.read_excel`, its `Failure` for the exception it raises. */
  function RunUpdate(salesPick: Option<string>, peoplePick: Option<string>,
                     salesFiles: seq<FileStat>, peopleFiles: seq<FileStat>,
                     readExcel: (string, nat) -> Result<Frame, string>, parse: IdParser): (r: Result<Output, Failure>)
    ensures ResolveInputPaths(salesPick, peoplePick, salesFiles, peopleFiles).Failure? ==>
      r == Failure(ResolveInputPaths(salesPick, peoplePick, salesFiles, peopleFiles).error)
    ensures var paths := ResolveInputPaths(salesPick, peoplePick, salesFiles, peopleFiles);
      paths.Success? && readExcel(paths.value.0, SalesSkipRows).Failure? ==>
        r == Failure(Unreadable(readExcel(paths.value.0, SalesSkipRows).error))
    ensures r.Success? ==>
      && r.value.table.columns == Names(ScriptLayout)
      && r.value.rowCount == |r.value.table.rows|
  {
    var paths :- ResolveInputPaths(salesPick, peoplePick, salesFiles, peopleFiles);
    Pipeline(AsRead(readExcel(paths.0, SalesSkipRows)), AsRead(readExcel(paths.1, 0)), parse, ScriptLayout)
  }

  /** Whichever way the two paths were resolved, `main` is the shared
      pipeline with the script layout on what `pd.read_excel` makes of them. */
  lemma RunUpdateIsPipeline(salesPick: Option<string>, peoplePick: Option<string>,
                            salesFiles: seq<FileStat>, peopleFiles: seq<FileStat>,
                            readExcel: (string, nat) -> Result<Frame, string>, parse: IdParser,
                            salesPath: string, peoplePath: string)
    requires ResolveInputPaths(salesPick, peoplePick, salesFiles, peopleFiles) == Success((salesPath, peoplePath))
    ensures RunUpdate(salesPick, peoplePick, salesFiles, peopleFiles, readExcel, parse)
         == Pipeline(AsRead(readExcel(salesPath, SalesSkipRows)), AsRead(readExcel(peoplePath, 0)), parse, ScriptLayout)
  {
  }

  /** A sales report without the required columns raises the `KeyError`,
      whatever the people file holds and even when it cannot be read. */
  lemma RunUpdateMissingColumns(salesPick: Option<string>, peoplePick: Option<string>,
                                salesFiles: seq<FileStat>, peopleFiles: seq<FileStat>,
                                readExcel: (string, nat) -> Result<Frame, string>, parse: IdParser,
                                salesPath: string, peoplePath: string, sales: Frame)
    requires ResolveInputPaths(salesPick, peoplePick, salesFiles, peopleFiles) == Success((salesPath, peoplePath))
    requires readExcel(salesPath, SalesSkipRows) == Success(sales)
    requires MissingRequired(sales.columns) != []
    ensures RunUpdate(salesPick, peoplePick, salesFiles, peopleFiles, readExcel, parse)
         == Failure(MissingColumns(MissingRequired(sales.columns), sales.columns))
  {
    RunUpdateIsPipeline(salesPick, peoplePick, salesFiles, peopleFiles, readExcel, parse, salesPath, peoplePath);
  }

  /** After a sales report that passes the check, an unreadable people file
      surfaces its read error, and a people table narrower than 105 columns
      is rejected with its actual width. */
  lemma RunUpdatePeopleErrors(salesPick: Option<string>, peoplePick: Option<string>,
                              salesFiles: seq<FileStat>, peopleFiles: seq<FileStat>,
                              readExcel: (string, nat) -> Result<Frame, string>, parse: IdParser,
                              salesPath: string, peoplePath: string, sales: Frame)
    requires ResolveInputPaths(salesPick, peoplePick, salesFiles, peopleFiles) == Success((salesPath, peoplePath))
    requires readExcel(salesPath, SalesSkipRows) == Success(sales)
    requires MissingRequired(sales.columns) == []
    ensures var r := RunUpdate(salesPick, peoplePick, salesFiles, peopleFiles, readExcel, parse);
            var people := readExcel(peoplePath, 0);
      && (people.Failure? ==> r == Failure(Unreadable(people.error)))
      && (people.Success? && |people.value.columns| < MinPeopleColumns ==>
            r == Failure(TooFewPeopleColumns(|people.value.columns|)))
      && (people.Success? && |people.value.columns| >= MinPeopleColumns ==> r.Success?)
  {
    RunUpdateIsPipeline(salesPick, peoplePick, salesFiles, peopleFiles, readExcel, parse, salesPath, peoplePath);
  }
}
