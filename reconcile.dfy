/** The reconciliation pipeline shared by the web app and the script: flag
    normalisation, the sales schema check, the set of active identifiers, the
    people-table column check and selection mask, and the projection onto a
    fixed list of (position, output name) fields. */
module Reconcile {
  import opened Wrappers
  import opened Text
  import opened Tables

  // ---------------------------------------------------------------------------
  // Flag normalisation

  /** `_normalize_yes` on one cell: missing reads as "", then strip,
      lower-case and compare with "yes". */
  predicate IsYes(c: Cell) {
    Lower(Strip(CellText(c))) == "yes"
  }

  /** The status test on the people table: strip, upper-case, compare with "LOA". */
  predicate IsLoa(c: Cell) {
    Upper(Strip(CellText(c))) == "LOA"
  }

  /** `s` holds "yes", in some ASCII letter case, with nothing but
      whitespace around it. */
  ghost predicate PaddedYes(s: string) {
    exists i, j :: 0 <= i <= j <= |s| && AllSpace(s[..i]) && AllSpace(s[j..]) && Lower(s[i..j]) == "yes"
  }

  /** `s` holds "LOA", in some ASCII letter case, with nothing but
      whitespace around it. */
  ghost predicate PaddedLoa(s: string) {
    exists i, j :: 0 <= i <= j <= |s| && AllSpace(s[..i]) && AllSpace(s[j..]) && Upper(s[i..j]) == "LOA"
  }

  lemma YesIsBare(w: string)
    requires Lower(w) == "yes"
    ensures Bare(w)
  {
  }

  lemma LoaIsBare(w: string)
    requires Upper(w) == "LOA"
    ensures Bare(w)
  {
  }

  /** A yes flag comes from a present cell holding "yes", in some letter
      case, with nothing but whitespace around it... */
  lemma YesIsPadded(c: Cell)
    requires IsYes(c)
    ensures c.Some? && PaddedYes(c.value)
  {
    var s := CellText(c);
    var i := StripSlice(s);
    var w := Strip(s);
    assert |w| == 3;
    assert 0 <= i <= i + |w| <= |s| && AllSpace(s[..i]) && AllSpace(s[i + |w|..]) && Lower(s[i..i + |w|]) == "yes";
  }

  /** ... and every such cell is a yes flag. */
  lemma PaddedIsYes(s: string)
    requires PaddedYes(s)
    ensures IsYes(Some(s))
  {
    var i, j :| 0 <= i <= j <= |s| && AllSpace(s[..i]) && AllSpace(s[j..]) && Lower(s[i..j]) == "yes";
    var v := s[i..j];
    YesIsBare(v);
    assert s[i + |v|..] == s[j..];
    StripIsUnique(s, v, i);
  }

  /** An LOA status comes from a present cell holding "loa", in some letter
      case, with nothing but whitespace around it... */
  lemma LoaIsPadded(c: Cell)
    requires IsLoa(c)
    ensures c.Some? && PaddedLoa(c.value)
  {
    var s := CellText(c);
    var i := StripSlice(s);
    var w := Strip(s);
    assert |w| == 3;
    assert 0 <= i <= i + |w| <= |s| && AllSpace(s[..i]) && AllSpace(s[i + |w|..]) && Upper(s[i..i + |w|]) == "LOA";
  }

  /** ... and every such cell is an LOA status. */
  lemma PaddedIsLoa(s: string)
    requires PaddedLoa(s)
    ensures IsLoa(Some(s))
  {
    var i, j :| 0 <= i <= j <= |s| && AllSpace(s[..i]) && AllSpace(s[j..]) && Upper(s[i..j]) == "LOA";
    var v := s[i..j];
    LoaIsBare(v);
    assert s[i + |v|..] == s[j..];
    StripIsUnique(s, v, i);
  }

  /** Case and surrounding whitespace do not matter to a flag... */
  lemma YesExample()
    ensures IsYes(Some(" Yes\t"))
  {
  }

  /** ... and anything but yes, a missing cell included, is no. */
  lemma NoExamples()
    ensures !IsYes(None) && !IsYes(Some("")) && !IsYes(Some("No")) && !IsYes(Some("maybe"))
  {
  }

  lemma LoaExample()
    ensures IsLoa(Some(" loa "))
  {
  }

  lemma NotLoaExamples()
    ensures !IsLoa(None) && !IsLoa(Some("L O A"))
  {
  }

  // ---------------------------------------------------------------------------
  // Sales schema check

  const SalesId := "Employee ID"
  const SalesActive := "Active Status"
  const SalesOnLeave := "On Leave"

  /** The required sales columns, in the order `sorted()` lists them. */
  const RequiredSalesColumns: seq<string> := [SalesActive, SalesId, SalesOnLeave]

  lemma RequiredSalesColumnsSorted()
    ensures StrictlySorted(RequiredSalesColumns)
  {
  }

  /** The names among `names` that are not column labels, in their order. */
  function Absent(names: seq<string>, columns: seq<string>): (r: seq<string>)
    ensures forall x :: x in r <==> x in names && x !in columns
    ensures StrictlySorted(names) ==> StrictlySorted(r)
  {
    if |names| == 0 then []
    else
      var rest := Absent(names[1..], columns);
      if names[0] in columns then rest
      else
        assert StrictlySorted(names) ==> StrictlySorted([names[0]] + rest) by {
          if StrictlySorted(names) {
            forall x | x in rest ensures LexLess(names[0], x) {
              var k :| 0 <= k < |names[1..]| && names[1..][k] == x;
              assert names[k + 1] == x;
            }
          }
        }
        [names[0]] + rest
  }

  /** `sorted(required_sales_cols - set(sales.columns))`: exactly the
      required names that are not labels, in sorted order. */
  function MissingRequired(columns: seq<string>): (r: seq<string>)
    ensures forall x :: x in r <==> x in RequiredSalesColumns && x !in columns
    ensures StrictlySorted(r)
  {
    RequiredSalesColumnsSorted();
    Absent(RequiredSalesColumns, columns)
  }

  /** Position of the first column with label `name`, as `sales[name]` finds it. */
  function ColumnIndex(columns: seq<string>, name: string): (r: Option<nat>)
    ensures r.Some? <==> name in columns
    ensures r.Some? ==> r.value < |columns| && columns[r.value] == name
                        && forall j :: 0 <= j < r.value ==> columns[j] != name
  {
    if |columns| == 0 then None
    else if columns[0] == name then Some(0)
    else
      var rest := ColumnIndex(columns[1..], name);
      if rest.None? then None else Some(rest.value + 1)
  }

  /** Where the three required columns sit in the sales table. */
  datatype SalesColumns = SalesColumns(id: nat, active: nat, leave: nat) {
    predicate Within(width: nat) {
      id < width && active < width && leave < width
    }
  }

  function LocateSalesColumns(columns: seq<string>): (sc: SalesColumns)
    requires MissingRequired(columns) == []
    ensures sc.Within(|columns|)
    ensures columns[sc.id] == SalesId && columns[sc.active] == SalesActive && columns[sc.leave] == SalesOnLeave
  {
    assert SalesId !in MissingRequired(columns);
    assert SalesActive !in MissingRequired(columns);
    assert SalesOnLeave !in MissingRequired(columns);
    SalesColumns(ColumnIndex(columns, SalesId).value, ColumnIndex(columns, SalesActive).value,
                 ColumnIndex(columns, SalesOnLeave).value)
  }

  // ---------------------------------------------------------------------------
  // Active identifier set

  /** `active_yes & ~on_leave_yes` on one sales row. */
  predicate ActiveNotOnLeave(row: Row, sc: SalesColumns)
    requires sc.Within(|row|)
  {
    IsYes(row[sc.active]) && !IsYes(row[sc.leave])
  }

  /** Row `j` of the sales table is active and not on leave. */
  predicate ActiveAt(sales: Frame, sc: SalesColumns, j: nat)
    requires sc.Within(|sales.columns|) && j < |sales.rows|
  {
    assert sales.rows[j] in sales.rows;
    ActiveNotOnLeave(sales.rows[j], sc)
  }

  /** The coerced identifier of sales row `j`. */
  function SalesIdAt(sales: Frame, sc: SalesColumns, parse: IdParser, j: nat): Option<int>
    requires sc.Within(|sales.columns|) && j < |sales.rows|
  {
    assert sales.rows[j] in sales.rows;
    ParseId(parse, sales.rows[j][sc.id])
  }

  /** `series.loc[keep]` followed by `to_numeric(...).dropna()`: the values
      present at the kept positions. */
  function KeptValues(values: seq<Option<int>>, keep: seq<bool>): (r: seq<int>)
    requires |keep| == |values|
    ensures forall x :: x in r <==> exists j :: 0 <= j < |values| && keep[j] && values[j] == Some(x)
  {
    if |values| == 0 then []
    else
      var rest := KeptValues(values[1..], keep[1..]);
      assert forall j :: 1 <= j < |values| ==> values[j] == values[1..][j - 1] && keep[j] == keep[1..][j - 1];
      (if keep[0] && values[0].Some? then [values[0].value] else []) + rest
  }

  predicate NoDuplicates(s: seq<int>) {
    forall i, j :: 0 <= i < j < |s| ==> s[i] != s[j]
  }

  /** `.unique()`: each value once. */
  function Unique(s: seq<int>): (r: seq<int>)
    ensures forall x :: x in r <==> x in s
    ensures NoDuplicates(r)
    ensures |r| <= |s|
  {
    if |s| == 0 then []
    else
      var u := Unique(s[..|s| - 1]);
      assert forall x :: x in s <==> x in s[..|s| - 1] || x == s[|s| - 1] by {
        assert s == s[..|s| - 1] + [s[|s| - 1]];
      }
      if s[|s| - 1] in u then u else u + [s[|s| - 1]]
  }

  /** `active_ids`: the identifiers of the sales rows that are active and not
      on leave and whose identifier coerces, each once. */
  function ActiveIdentifiers(sales: Frame, sc: SalesColumns, parse: IdParser): (ids: seq<int>)
    requires sc.Within(|sales.columns|)
    ensures NoDuplicates(ids)
    ensures forall x :: x in ids <==>
      exists j :: 0 <= j < |sales.rows| && ActiveAt(sales, sc, j) && SalesIdAt(sales, sc, parse, j) == Some(x)
  {
    var keep := seq(|sales.rows|, j requires 0 <= j < |sales.rows| => ActiveAt(sales, sc, j));
    var values := seq(|sales.rows|, j requires 0 <= j < |sales.rows| => SalesIdAt(sales, sc, parse, j));
    assert forall j :: 0 <= j < |sales.rows| ==>
      keep[j] == ActiveAt(sales, sc, j) && values[j] == SalesIdAt(sales, sc, parse, j);
    var ids := Unique(KeptValues(values, keep));
    assert forall x :: x in ids <==> exists j :: 0 <= j < |values| && keep[j] && values[j] == Some(x);
    ids
  }

  // ---------------------------------------------------------------------------
  // People table: column check and selection mask

  /** Column DA, the last position read, is index 104. */
  const MinPeopleColumns := 105
  const PeopleIdColumn := 0
  const PeopleStatusColumn := 10

  /** `valid_ids & in_sales & status_loa` on one people row. */
  predicate Selected(row: Row, active: seq<int>, parse: IdParser)
    requires |row| > PeopleStatusColumn
  {
    var id := ParseId(parse, row[PeopleIdColumn]);
    id.Some? && id.value in active && IsLoa(row[PeopleStatusColumn])
  }

  function SelectionMask(people: Frame, active: seq<int>, parse: IdParser): (mask: seq<bool>)
    requires |people.columns| >= MinPeopleColumns
    ensures |mask| == |people.rows|
  {
    seq(|people.rows|, i requires 0 <= i < |people.rows| => Selected(people.rows[i], active, parse))
  }

  // ---------------------------------------------------------------------------
  // Projection

  /** One output column: the people-table position it is read from and the
      name it is written under. */
  datatype Field = Field(position: nat, name: string)
  type Layout = seq<Field>

  function Names(layout: Layout): (names: seq<string>)
    ensures |names| == |layout|
    ensures forall k :: 0 <= k < |layout| ==> names[k] == layout[k].name
  {
    seq(|layout|, k requires 0 <= k < |layout| => layout[k].name)
  }

  predicate WithinColumns(layout: Layout, width: nat) {
    forall k :: 0 <= k < |layout| ==> layout[k].position < width
  }

  /** A layout that reads only columns a people table that passed the column
      check has. */
  type FittingLayout = layout: Layout | WithinColumns(layout, MinPeopleColumns) witness []

  /** `process_files`' layout: nine columns, with the termination date. */
  const WebLayout: FittingLayout := [
    Field(0, "# Employee ID*"), Field(6, "First Name"), Field(8, "Last Name"),
    Field(9, "Region"), Field(68, "Country"), Field(10, "Employee Status"),
    Field(12, "Termination Date"), Field(50, "Analyst_Name"), Field(104, "Plan_Type")]

  /** The script's layout: the same fields without the termination date. */
  const ScriptLayout: FittingLayout := [
    Field(0, "# Employee ID*"), Field(6, "First Name"), Field(8, "Last Name"),
    Field(9, "Region"), Field(68, "Country"), Field(10, "Employee Status"),
    Field(50, "Analyst_Name"), Field(104, "Plan_Type")]

  /** Both layouts only read columns a table that passed the column check
      has, and they differ exactly by the termination date. */
  lemma LayoutsFit()
    ensures WithinColumns(WebLayout, MinPeopleColumns) && WithinColumns(ScriptLayout, MinPeopleColumns)
    ensures |WebLayout| == 9 && |ScriptLayout| == 8
    ensures ScriptLayout == WebLayout[..6] + WebLayout[7..]
    ensures WebLayout[6] == Field(12, "Termination Date")
  {
  }

  /** The output headers, in order. */
  lemma LayoutNames()
    ensures Names(WebLayout) == ["# Employee ID*", "First Name", "Last Name", "Region", "Country",
                                 "Employee Status", "Termination Date", "Analyst_Name", "Plan_Type"]
    ensures Names(ScriptLayout) == ["# Employee ID*", "First Name", "Last Name", "Region", "Country",
                                    "Employee Status", "Analyst_Name", "Plan_Type"]
  {
  }

  /** `[row[p] for p in selected_indices]` for one row. */
  function PickColumns(row: Row, layout: Layout): (r: Row)
    requires WithinColumns(layout, |row|)
    ensures |r| == |layout|
    ensures forall k :: 0 <= k < |layout| ==> r[k] == row[layout[k].position]
  {
    seq(|layout|, k requires 0 <= k < |layout| => row[layout[k].position])
  }

  /** `sum(mask)`. */
  function CountTrue(mask: seq<bool>): (n: nat)
    ensures n <= |mask|
  {
    if |mask| == 0 then 0
    else CountTrue(mask[..|mask| - 1]) + (if mask[|mask| - 1] then 1 else 0)
  }

  /** The count is zero exactly when no entry is true, and the full length
      exactly when every entry is. */
  lemma {:induction false} CountTrueExtremes(mask: seq<bool>)
    ensures CountTrue(mask) == 0 <==> forall i :: 0 <= i < |mask| ==> !mask[i]
    ensures CountTrue(mask) == |mask| <==> forall i :: 0 <= i < |mask| ==> mask[i]
  {
    if |mask| > 0 {
      var prefix := mask[..|mask| - 1];
      CountTrueExtremes(prefix);
      assert forall i :: 0 <= i < |prefix| ==> prefix[i] == mask[i];
    }
  }

  /** The positions where the mask is true, in increasing order. */
  function SelectedIndices(mask: seq<bool>): (ix: seq<nat>)
    ensures |ix| == CountTrue(mask)
    ensures forall k :: 0 <= k < |ix| ==> ix[k] < |mask| && mask[ix[k]]
    ensures forall k, l :: 0 <= k < l < |ix| ==> ix[k] < ix[l]
    ensures forall i :: 0 <= i < |mask| && mask[i] ==> i in ix
  {
    if |mask| == 0 then []
    else
      var n := |mask| - 1;
      var prefix := SelectedIndices(mask[..n]);
      assert forall i :: 0 <= i < n ==> mask[..n][i] == mask[i];
      prefix + (if mask[n] then [n] else [])
  }

  /** `people.loc[mask]`: the rows where the mask is true, in source order. */
  function KeepRows(rows: seq<Row>, mask: seq<bool>): (kept: seq<Row>)
    requires |mask| == |rows|
    ensures |kept| == CountTrue(mask)
    ensures forall k :: 0 <= k < |kept| ==> kept[k] == rows[SelectedIndices(mask)[k]]
  {
    if |rows| == 0 then []
    else
      var n := |rows| - 1;
      var prefix := KeepRows(rows[..n], mask[..n]);
      var ix, ixPrefix := SelectedIndices(mask), SelectedIndices(mask[..n]);
      assert ix == ixPrefix + (if mask[n] then [n] else []);
      assert forall k :: 0 <= k < |prefix| ==> ix[k] == ixPrefix[k] && rows[..n][ixPrefix[k]] == rows[ix[k]];
      prefix + (if mask[n] then [rows[n]] else [])
  }

  /** `selected_cols` applied to each of `rows`. */
  function PickRows(rows: seq<Row>, layout: Layout): (picked: seq<Row>)
    requires forall row <- rows :: WithinColumns(layout, |row|)
    ensures |picked| == |rows|
    ensures forall k :: 0 <= k < |rows| ==> picked[k] == PickColumns(rows[k], layout)
    ensures forall row <- picked :: |row| == |layout|
  {
    seq(|rows|, k requires 0 <= k < |rows| => PickColumns(rows[k], layout))
  }

  /** `people.loc[mask, selected_cols]` renamed to the layout's names: one
      row per true mask entry, in source order, each the layout's cells. */
  function Project(people: Frame, mask: seq<bool>, layout: Layout): (out: Frame)
    requires |mask| == |people.rows|
    requires WithinColumns(layout, |people.columns|)
    ensures out.columns == Names(layout)
    ensures |out.rows| == CountTrue(mask)
    ensures forall k :: 0 <= k < |out.rows| ==>
      |people.rows[SelectedIndices(mask)[k]]| == |people.columns|
      && out.rows[k] == PickColumns(people.rows[SelectedIndices(mask)[k]], layout)
  {
    var kept := KeepRows(people.rows, mask);
    assert forall k :: 0 <= k < |kept| ==> kept[k] in people.rows;
    Table(Names(layout), PickRows(kept, layout))
  }

  // ---------------------------------------------------------------------------
  // The pipeline

  /** The projected table and the row count the caller is told. */
  datatype Output = Output(table: Frame, rowCount: nat)

  /** The pipeline from the two read results to the projected table. The
      sales table is checked before the people table's read result is
      looked at, so its errors come first. */
  function Pipeline(salesRead: Result<Frame, Failure>, peopleRead: Result<Frame, Failure>,
                     parse: IdParser, layout: FittingLayout): (r: Result<Output, Failure>)
    ensures salesRead.Failure? ==> r == Failure(salesRead.error)
    ensures salesRead.Success? && MissingRequired(salesRead.value.columns) != [] ==>
      r == Failure(MissingColumns(MissingRequired(salesRead.value.columns), salesRead.value.columns))
    ensures salesRead.Success? && MissingRequired(salesRead.value.columns) == [] && peopleRead.Failure? ==>
      r == Failure(peopleRead.error)
    ensures salesRead.Success? && MissingRequired(salesRead.value.columns) == [] && peopleRead.Success?
            && |peopleRead.value.columns| < MinPeopleColumns ==>
      r == Failure(TooFewPeopleColumns(|peopleRead.value.columns|))
    ensures r.Success? <==>
      salesRead.Success? && MissingRequired(salesRead.value.columns) == []
      && peopleRead.Success? && |peopleRead.value.columns| >= MinPeopleColumns
    ensures r.Success? ==> r.value.table.columns == Names(layout) && r.value.rowCount == |r.value.table.rows|
  {
    var sales :- salesRead;
    var missing := MissingRequired(sales.columns);
    if missing != [] then Failure(MissingColumns(missing, sales.columns))
    else
      var active := ActiveIdentifiers(sales, LocateSalesColumns(sales.columns), parse);
      var people :- peopleRead;
      if |people.columns| < MinPeopleColumns then Failure(TooFewPeopleColumns(|people.columns|))
      else
        var out := Project(people, SelectionMask(people, active, parse), layout);
        Success(Output(out, |out.rows|))
  }

  /** A people row belongs in the output: its status is LOA and its
      identifier coerces to the coerced identifier of some sales row that is
      active and not on leave. */
  ghost predicate ReturningEmployee(sales: Frame, sc: SalesColumns, row: Row, parse: IdParser)
    requires sc.Within(|sales.columns|)
    requires |row| >= MinPeopleColumns
  {
    && IsLoa(row[PeopleStatusColumn])
    && ParseId(parse, row[PeopleIdColumn]).Some?
    && exists j :: 0 <= j < |sales.rows| && ActiveAt(sales, sc, j)
                   && SalesIdAt(sales, sc, parse, j) == ParseId(parse, row[PeopleIdColumn])
  }

  /** The mask is the join: a people row is selected exactly when it is a
      returning employee. */
  lemma SelectedIsJoin(sales: Frame, sc: SalesColumns, row: Row, parse: IdParser)
    requires sc.Within(|sales.columns|)
    requires |row| >= MinPeopleColumns
    ensures Selected(row, ActiveIdentifiers(sales, sc, parse), parse) <==> ReturningEmployee(sales, sc, row, parse)
  {
  }

  /** Row by row, the selection mask is the join. */
  lemma MaskIsJoin(sales: Frame, sc: SalesColumns, people: Frame, parse: IdParser)
    requires sc.Within(|sales.columns|)
    requires |people.columns| >= MinPeopleColumns
    ensures var mask := SelectionMask(people, ActiveIdentifiers(sales, sc, parse), parse);
      forall i :: 0 <= i < |people.rows| ==>
        |people.rows[i]| == |people.columns| && (mask[i] <==> ReturningEmployee(sales, sc, people.rows[i], parse))
  {
  }

  /** On tables that pass both checks the output holds, in source order and
      once each, the layout's cells of exactly the returning employees' rows,
      and the reported count is their number. */
  lemma ReconcileOutput(sales: Frame, people: Frame, parse: IdParser, layout: FittingLayout) returns (ix: seq<nat>)
    requires MissingRequired(sales.columns) == []
    requires |people.columns| >= MinPeopleColumns
    ensures var r := Pipeline(Success(sales), Success(people), parse, layout);
      && r.Success?
      && r.value.rowCount == |ix| == |r.value.table.rows|
      && (forall k, l :: 0 <= k < l < |ix| ==> ix[k] < ix[l])
      && (forall i :: 0 <= i < |people.rows| ==>
            |people.rows[i]| == |people.columns|
            && (i in ix <==> ReturningEmployee(sales, LocateSalesColumns(sales.columns), people.rows[i], parse)))
      && (forall k :: 0 <= k < |ix| ==>
            ix[k] < |people.rows| && r.value.table.rows[k] == PickColumns(people.rows[ix[k]], layout))
  {
    var sc := LocateSalesColumns(sales.columns);
    var mask := SelectionMask(people, ActiveIdentifiers(sales, sc, parse), parse);
    ix := SelectedIndices(mask);
    var out := Project(people, mask, layout);
    assert Pipeline(Success(sales), Success(people), parse, layout) == Success(Output(out, |out.rows|));
    MaskIsJoin(sales, sc, people, parse);
    forall i | 0 <= i < |people.rows| && i in ix ensures mask[i] {
      var k :| 0 <= k < |ix| && ix[k] == i;
    }
  }

}
