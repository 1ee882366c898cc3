# LOA return update — a Dafny model

This project models the reconciliation at the heart of the LOA return update tools. Two front ends share it:

- the web app `loa_web_app.py` (`process_files` and its spreadsheet-reading helpers);
- the desktop script `loa_return_update.py` (`main` with its input-file selection).

Both front ends read two spreadsheets: a sales compensation report and a people export. They produce the people rows of employees who are on leave of absence (status `LOA`) and are active and not on leave in the sales report. The join is on the numerically coerced employee identifier. The result is projected onto a fixed list of people-table positions, each renamed to an output header.

Both source files are pure computations apart from their I/O, so the model is made of datatypes, functions and lemmas:

- `Wrappers`: `Option` and `Result`.
- `Text`: Python's `str.strip` (over the `str.isspace` character set), ASCII `lower`/`upper`, and code-point string order (what `sorted` uses).
- `Tables`: the table as a header plus rows of optional text cells (`None` is a missing value), the abstract identifier coercion `IdParser` that both sides of the join share, and the `Failure` kinds a run can end with.
- `Sniffer`: the web app's OLE signature test, its detection of a protected OLE file by stream markers, and the `_read_excel` decision table. Each decoder run is an abstract function of (engine, skipped rows).
- `Reconcile`: the shared pipeline, parameterised by a layout of (position, output name) fields:
  - the yes flag and the LOA status test;
  - the sales schema check;
  - the active identifier set;
  - the 105-column check and the selection mask;
  - the projection.
  
  It also proves the join and output properties.
- `WebApp`: `process_files` with the nine-column layout and `_read_excel` on both uploads.
- `ReturnUpdate`: `_pick_latest`, `_resolve_input_paths` and `main` with the eight-column layout on plain `pd.read_excel` results.

The order in which the source reads and checks (sales first, then people) appears in the model as error precedence. `Pipeline` reports a sales read error first, then missing sales columns, then a people read error, then too few people columns.

Facts of the code the model keeps:

- The output headers are `# Employee ID*`, `First Name`, `Last Name`, `Region`, `Country`, `Employee Status`, `Termination Date`, `Analyst_Name` and `Plan_Type` in the web app (loa_web_app.py:97-107), and the same without `Termination Date` in the script (loa_return_update.py:90-99).
- The encryption markers are matched as whole stream-path components, because olefile's `listdir()` yields each stream as a list of components (loa_web_app.py:42-44).
- `_read_excel` always tries the default engine first and retries with xlrd only when that fails and the file has the OLE signature (loa_web_app.py:55-60).
- The script reads with plain `pd.read_excel`, without encryption detection or an xlrd retry (loa_return_update.py:57). Its read failures surface unchanged.

## Model

| member | source | states |
|---|---|---|
| Reconcile.YesIsPadded | loa_web_app.py:23-24 | `IsYes`, the model of `_normalize_yes`: a yes flag comes from a present cell holding "yes", in some ASCII letter case, with only whitespace around it; a missing cell is never yes |
| Reconcile.PaddedIsYes | loa_return_update.py:21-22 | Conversely, for `IsYes` in both front ends, every cell holding "yes" in any ASCII letter case with only whitespace around it is a yes flag |
| Reconcile.NoExamples | loa_return_update.py:21-22 | The script's yes test rejects a missing cell, the empty text, "No" and "maybe" |
| Reconcile.YesExample | loa_return_update.py:21-22 | " Yes\t" counts as yes (strip, then lower-case) |
| Reconcile.LoaIsPadded | loa_web_app.py:89 | `IsLoa`, the status test: an LOA status comes from a present cell holding "loa", in some ASCII letter case, with only whitespace around it |
| Reconcile.PaddedIsLoa | loa_web_app.py:89 | Conversely, every cell holding "loa" in any ASCII letter case with only whitespace around it is an LOA status |
| Reconcile.LoaExample | loa_return_update.py:82 | " loa " is LOA status |
| Reconcile.NotLoaExamples | loa_web_app.py:89 | A missing status cell and "L O A" are not LOA status |
| Text.TrimStartShape | loa_web_app.py:24 | The left strip removes a whitespace-only prefix and keeps a suffix that does not start with whitespace |
| Text.TrimEndShape | loa_web_app.py:24 | The right strip removes a whitespace-only suffix and keeps a prefix that does not end with whitespace |
| Text.StripBare | loa_web_app.py:24 | Neither end of stripped text is whitespace |
| Text.StripIsUnique | loa_web_app.py:24 | Stripping text that is a whitespace-free-ended word padded only by whitespace yields exactly that word |
| Text.StripSlice | loa_web_app.py:24 | `Strip` (with `TrimStart` and `TrimEnd`), the model of `str.strip()`: the stripped text is a contiguous slice of the input, neither of its ends is whitespace, and everything cut away is whitespace |
| Sniffer.ReadPrefix | loa_web_app.py:30 | Reading n bytes yields the first min(n, length) bytes |
| Sniffer.IsOleFile | loa_web_app.py:16-32 | True if and only if the file could be read and its first 8 bytes equal D0 CF 11 E0 A1 B1 1A E1; a short file or an OSError gives false |
| Sniffer.AnyStreamHas | loa_web_app.py:42-44 | True if and only if some stream path has a component equal to the marker |
| Sniffer.IsEncryptedOle | loa_web_app.py:35-46 | True if and only if olefile is available, the file is OLE, the stream directory could be listed, and some path component is EncryptedPackage or DRMEncrypted |
| Sniffer.MarkerIsComponentNotSubstring | loa_web_app.py:42-44 | A stream named "EncryptedPackage2" does not mark a file as protected; a DRMEncrypted component under a storage does |
| Sniffer.ReadExcel | loa_web_app.py:49-60 | The decision table: a protected file fails with the protected-document error before any engine runs; a default decode success is returned; a default failure on an OLE file returns the xlrd outcome; otherwise the default engine's error is re-raised |
| Sniffer.ReadExcelTrace | loa_web_app.py:49-60 | Any table returned came from an engine that ran; xlrd runs only on an OLE file after the default engine failed; no engine runs exactly when the result is the protected-document error |
| Sniffer.NoProtectionWithoutOlefile | loa_web_app.py:36-37 | Without olefile no file is reported as protected, and every file reaches the default engine |
| Reconcile.RequiredSalesColumnsSorted | loa_web_app.py:65-69 | The three required sales names, as listed, are in sorted order |
| Reconcile.Absent | loa_web_app.py:66 | A name is in the result if and only if it is among the given names and not a column label; a sorted input gives a sorted result |
| Reconcile.MissingRequired | loa_web_app.py:65-71 | The reported missing names are exactly the required names absent from the header, strictly sorted |
| Reconcile.ColumnIndex | loa_web_app.py:73-75 | Finds a position if and only if the label is present, and then the first position holding it |
| Reconcile.LocateSalesColumns | loa_web_app.py:73-75 | On a header that passed the check, the located positions are in range and hold Employee ID, Active Status and On Leave |
| Reconcile.KeptValues | loa_web_app.py:75-76 | A value is kept if and only if some kept position holds it as a successfully coerced identifier |
| Reconcile.Unique | loa_web_app.py:77 | `unique()` keeps the same values, each once, and is no longer than its input |
| Reconcile.ActiveIdentifiers | loa_web_app.py:73-77 | The active set has no duplicates, and x is in it if and only if some sales row is active, not on leave, and has an identifier that coerces to x |
| Reconcile.SelectedIsJoin | loa_web_app.py:88-92 | `Selected`, the mask on one row: a people row is selected if and only if its status is LOA and its identifier coerces to the identifier of some active, not-on-leave sales row |
| Reconcile.MaskIsJoin | loa_web_app.py:88-92 | `SelectionMask`: position by position, `valid_ids & in_sales & status_loa` is true exactly for the returning employees (the same in loa_return_update.py:81-85) |
| Reconcile.LayoutsFit | loa_web_app.py:80-95 | Every position of both layouts lies within 105 columns; the web layout has 9 fields, the script layout 8, and the script layout is the web layout without the termination date at position 12 |
| Reconcile.LayoutNames | loa_return_update.py:87-99 | The output headers are exactly the fixed lists, in order, for each front end |
| Reconcile.CountTrue | loa_web_app.py:112 | `len(output)`, the number of true mask entries, is never more than the number of people rows |
| Reconcile.CountTrueExtremes | loa_web_app.py:112 | `len(output)` is zero exactly when no row is selected, and every people row exactly when all are selected |
| Reconcile.SelectedIndices | loa_web_app.py:96 | The selected positions are exactly the true mask entries, strictly increasing, and there are as many as true entries |
| Reconcile.KeepRows | loa_web_app.py:96 | The k-th kept row is the row at the k-th selected position, so source order is kept |
| Reconcile.Project | loa_web_app.py:94-107 | The output header is the layout's names; there is one row per true mask entry, in source order, each holding the layout's cells of that row |
| Reconcile.Pipeline | loa_web_app.py:63-112 | Error precedence: sales read error, then missing sales columns (sorted names plus available labels), then people read error, then fewer than 105 people columns (with the actual count); success exactly when none applies, with the layout's headers and a count equal to the output's row count |
| Reconcile.ReconcileOutput | loa_web_app.py:85-112 | On tables that pass both checks, the output holds, in source order and once each, the layout's cells of exactly the returning employees' rows, and the count is their number |
| WebApp.ProcessFiles | loa_web_app.py:63-112 | A protected sales upload fails first, and any other sales read failure (the default engine failing on a non-OLE file, or the xlrd retry failing) ends the run with that error; missing sales columns fail before the people upload matters; a protected people upload then fails; a success has the nine web headers and a count equal to its rows |
| WebApp.ProcessFilesPeopleErrors | loa_web_app.py:79-83 | After a sales table that passes the check, a people upload that cannot be read (protected or undecodable) surfaces that error, and one under 105 columns is rejected with its width |
| WebApp.ProcessFilesIsPipeline | loa_web_app.py:64-79 | Once both uploads are read, process_files is the shared pipeline with the web layout |
| ReturnUpdate.LatestIndex | loa_return_update.py:15 | The index chosen holds the greatest mtime, and no earlier file has that mtime (the first maximum) |
| ReturnUpdate.PickLatest | loa_return_update.py:10-18 | No candidates fails with "no file found" for that kind; a single candidate is returned as is; otherwise the first file of greatest mtime is returned |
| ReturnUpdate.ResolveInputPaths | loa_return_update.py:38-50 | Two picks are used as they are; otherwise both paths come from auto-discovery, so a single pick is discarded, and a missing sales file is reported before a missing people file |
| ReturnUpdate.RunUpdate | loa_return_update.py:53-99 | Input resolution errors come first, then the sales read error; a success has the eight script headers and a count equal to its rows |
| ReturnUpdate.RunUpdateIsPipeline | loa_return_update.py:55-99 | Whichever way the two paths were resolved (two picks or auto-discovery), main is the shared pipeline with the script layout on the two `pd.read_excel` results |
| ReturnUpdate.RunUpdateMissingColumns | loa_return_update.py:57-64 | A sales report missing required columns raises the missing-columns error with the sorted names and the available labels, before and regardless of the people file, even an unreadable one |
| ReturnUpdate.RunUpdatePeopleErrors | loa_return_update.py:72-76 | After a sales report that passes the check, an unreadable people file surfaces its read error, a people table under 105 columns is rejected with its width, and otherwise the run succeeds |

Definitions used by the contracts above, whose own contracts only spell out how they compute:

- `Text.Lower` and `Text.Upper`: ASCII `str.lower()` and `str.upper()` (loa_web_app.py:24, 89).
- `Tables.ParseId`: identifier coercion of one cell; a missing cell gives none (loa_web_app.py:88).
- `Tables.AsRead`: a decoder's exception surfaces as the unreadable-file failure (loa_return_update.py:57).
- `Reconcile.Names`, `Reconcile.PickColumns` and `Reconcile.PickRows`: the renamed headers and `people.loc[:, selected_cols]` (loa_web_app.py:94-107).

## Left out

- Flask routes (`index`, `process`, `download`), `secure_filename`, `render_template` and `send_from_directory` are left out: they are HTTP plumbing. This includes the "Both files are required." reply.
- `_new_run_dir` is left out: it depends on the clock and on uuid randomness.
- The tkinter dialog in `_select_file` is replaced by the picker's result, an optional path.
- The `glob` discovery and `stat` calls are replaced by the lists of candidate files and their modification times. mtimes are integers here, not floats.
- Spreadsheet decoding (`pd.read_excel`, the xlrd engine) and olefile's container parsing are foreign library calls. A decoder is an abstract function from (engine, skipped rows) to a table or an error message. The stream directory is given data.
- Writing the output (`mkdir`, `to_excel`), the output file name and the returned path are left out.
- The details of `pd.to_numeric(errors="coerce")` and `astype("Int64")` (float parsing, non-integral values) are left out. Identifier coercion is the abstract `IdParser` shared by both tables.
- Cells are text or missing. Numeric and date cells that `astype(str)` would render are not distinguished from their text.
- Case mapping covers ASCII letters only. Python's full Unicode `lower`/`upper` is not modelled.
- Duplicate column labels are not modelled. Label access takes the first column with that label; pandas would return several columns.
- Exception messages are modelled by the data they report (missing names, available labels, column count, file kind). Their wording and the working directory named in the "no file found" message are left out, as are the exception classes.
- The `print` calls of `_pick_latest` and `main` are output only and are left out.
- WebApp.ProcessFiles: its contract states the sales read errors but not the full output content. Instead, `WebApp.ProcessFilesIsPipeline` reduces it to `Reconcile.Pipeline` once both uploads are read, `WebApp.ProcessFilesPeopleErrors` states the people-upload errors, and `Reconcile.ReconcileOutput` states the content.
- ReturnUpdate.RunUpdate: its contract does not restate the missing-columns error, the people-file errors or the output content. `ReturnUpdate.RunUpdateIsPipeline`, `ReturnUpdate.RunUpdateMissingColumns`, `ReturnUpdate.RunUpdatePeopleErrors` and `Reconcile.ReconcileOutput` state them for every way the paths are resolved.
