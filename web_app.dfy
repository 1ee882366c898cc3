/** The web app's `process_files`: both uploads go through `_read_excel`
    (the sales report with three header rows skipped), then the shared
    pipeline with the nine-column layout. */
module WebApp {
  import opened Wrappers
  import opened Tables
  import opened Sniffer
  import opened Reconcile

  /** The sales report carries three title rows above its header. */
  const SalesSkipRows := 3

  function ProcessFiles(sales: Upload, people: Upload, oleAvailable: bool, parse: IdParser): (r: Result<Output, Failure>)
    ensures IsEncryptedOle(oleAvailable, sales.content, sales.streams) ==> r == Failure(ProtectedDocument)
    ensures var s := ReadExcel(sales, SalesSkipRows, oleAvailable).result;
      s.Failure? ==> r == Failure(s.error)
    ensures var s := ReadExcel(sales, SalesSkipRows, oleAvailable).result;
      s.Success? && MissingRequired(s.value.columns) != [] ==>
        r == Failure(MissingColumns(MissingRequired(s.value.columns), s.value.columns))
    ensures var s := ReadExcel(sales, SalesSkipRows, oleAvailable).result;
      (s.Success? && MissingRequired(s.value.columns) == [] && IsEncryptedOle(oleAvailable, people.content, people.streams))
        ==> r == Failure(ProtectedDocument)
    ensures r.Success? ==>
      && r.value.table.columns == Names(WebLayout)
      && r.value.rowCount == |r.value.table.rows|
  {
    Pipeline(ReadExcel(sales, SalesSkipRows, oleAvailable).result,
              ReadExcel(people, 0, oleAvailable).result, parse, WebLayout)
  }

  /** Once both uploads are read, `process_files` is the shared pipeline
      with the web layout. */
  lemma ProcessFilesIsPipeline(sales: Upload, people: Upload, oleAvailable: bool, parse: IdParser, s: Frame, p: Frame)
    requires ReadExcel(sales, SalesSkipRows, oleAvailable).result == Success(s)
    requires ReadExcel(people, 0, oleAvailable).result == Success(p)
    ensures ProcessFiles(sales, people, oleAvailable, parse) == Pipeline(Success(s), Success(p), parse, WebLayout)
  {
  }

  /** After a sales table that passes the check, a people upload that
      `_read_excel` refuses or cannot decode surfaces that error, and a
      people table narrower than 105 columns is rejected with its width. */
  lemma ProcessFilesPeopleErrors(sales: Upload, people: Upload, oleAvailable: bool, parse: IdParser, s: Frame)
    requires ReadExcel(sales, SalesSkipRows, oleAvailable).result == Success(s)
    requires MissingRequired(s.columns) == []
    ensures var r := ProcessFiles(sales, people, oleAvailable, parse);
            var p := ReadExcel(people, 0, oleAvailable).result;
      && (p.Failure? ==> r == Failure(p.error))
      && (p.Success? && |p.value.columns| < MinPeopleColumns ==> r == Failure(TooFewPeopleColumns(|p.value.columns|)))
  {
  }
}
