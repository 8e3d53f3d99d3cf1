# ExcelViewer core in Dafny

This project models the logic of the `ExcelViewer` React component
(`pages/components/ExcelViewer.tsx`). The component lets a user choose
spreadsheet files and tick some of their sheets. It then flattens the
ticked sheets into one list of `{Sub-item, Data, Sheet}` rows, and it
offers that list as a workbook download and as a CSV download.

The model follows the component's own structure:

- `workbook.dfy` (module `Workbook`) holds the decoded spreadsheet data.
  - Cell values carry JavaScript truthiness: `Absent` stands for undefined, then `Null`, `Bool`, `Num` and `Str`.
  - A `Grid` is a list of rows, and rows can have different lengths.
  - `MaxCol` is the longest row length.
- `sheet_scan.dfy` (module `SheetScan`) is the per-sheet flattening engine.
  - `ScanSheet` is the imperative column-pair loop and row loop from the processing handler.
  - `ScanSheet` is proved against the recursive specification `Scanned`, `SheetBody` and `SheetOutput`.
- `sheet_facts.dfy` (module `SheetFacts`) proves what a sheet's output is without the loops:
  - the filter reduced to one condition;
  - which positions emit a row, and in which order;
  - the shape of each emitted row;
  - the separator;
  - a bound on the number of rows;
  - the header row has no effect on the output;
  - the one-sheet example.
- `selection.dfy` (module `Selection`) covers the selection state.
  - `LoadFiles` is the imperative loop of the file-selection handler, with `UncheckAll` as its inner `forEach`.
  - `LoadFiles` is proved against `Loaded`.
  - This module also holds the checkbox toggle `Toggle` and the gating predicate `AnyChecked`.
- `processing.dfy` (module `Processing`) covers the file loop and the sheet loop of the processing handler.
  - `ProcessFiles` and `ProcessFile` are proved against `Flatten` and `FileOutput`.
  - The module also holds lemmas on order, separators and origins.
- `export.dfy` (module `Export`) covers the two download handlers and their empty-result guard.
- `viewer.dfy` (module `Viewer`) has the class `ExcelViewer`.
  - Its fields are the component's three state variables: `fileSheetMap`, `checkedSheets` and `processedData`.
  - Each event handler is a method that updates those fields.

Decoding and encoding are done by the spreadsheet library, which the
model does not include. Its results enter the model as data:

- an `Upload` carries the decoded sheets of one file, or `None` when the decoder throws;
- a `Download` carries the rows handed to the encoder.

Choices the model makes in following the code:

- Cells include `Bool`, because row decoding yields booleans as well as strings and numbers.
- Each processed row records the sheet name only, as the component does; the file name is not recorded.
- The code does not check that a toggled sheet or file exists:
  - For a file with no entry, the update throws. `Toggle` returns `None`, and the state does not change. From a well-formed state this cannot happen for a file in the map (`ToggleDefined`).
  - For a sheet with no entry, the flag is set to `true`, because `!undefined` is `true` in JavaScript.
- The code re-decodes each file when it processes. The model stores each file's decoded grids in its file-map entry at load time. This is the same as re-decoding, provided decoding is deterministic.

## Model

| member | source | states |
|---|---|---|
| Workbook.Truthy | pages/components/ExcelViewer.tsx:76 | definition, no contract; JavaScript truthiness, stated by FalsyValues |
| Workbook.CellAt | pages/components/ExcelViewer.tsx:74-75 | definition, no contract; `rows[r][c]`, undefined past the end of a row, stated by EmitsWithinRow |
| Workbook.FalsyValues | pages/components/ExcelViewer.tsx:76 | exactly undefined, null, false, 0 and "" are falsy, the values the skip test treats as empty |
| Workbook.MaxCol | pages/components/ExcelViewer.tsx:69 | maxCol is at least every row's length and is the length of some row; it is 0 for a grid with no rows, which loops no pairs, as `Math.max()` = -Infinity does |
| SheetScan.DataValue | pages/components/ExcelViewer.tsx:75 | definition, no contract; `cell \|\| ''`, stated by DataValueFacts |
| SheetScan.Emits | pages/components/ExcelViewer.tsx:76-77 | definition, no contract; the two-stage filter, stated by EmitsIff and EmitsWithinRow |
| SheetScan.Extracted | pages/components/ExcelViewer.tsx:78-82 | definition, no contract; the pushed row, stated by ScannedRowsAt and SheetBodyRowsAt |
| SheetScan.PairCount | pages/components/ExcelViewer.tsx:71 | definition, no contract; the number of pairs the outer loop visits, stated by PairCountIff |
| SheetScan.Scanned | pages/components/ExcelViewer.tsx:71-86 | definition, no contract; the rows the two loops have pushed so far, stated by ScannedPositionsIff, ScannedPositionsSorted, ScannedRowsAt, ScannedDataRows and ScannedBound |
| SheetScan.SheetBody | pages/components/ExcelViewer.tsx:69-87 | definition, no contract; one sheet's data rows, stated by EmittingPositionsIff, SheetBodyRowsAt, SheetBodyDataRows, SheetBodyBound and HeaderIndependence |
| SheetScan.SheetOutput | pages/components/ExcelViewer.tsx:69-95 | definition, no contract; one sheet's data rows and separator, stated by SheetOutputSeparator, DegenerateSheet and ScanSheet |
| SheetScan.ScanSheet | pages/components/ExcelViewer.tsx:69-95 | the pair loop and the row loop return exactly the sheet's data rows, followed by one separator when there is at least one |
| SheetFacts.DataValueFacts | pages/components/ExcelViewer.tsx:75 | `cell \|\| ''` keeps a truthy cell, turns a falsy one into "", and is never undefined or null |
| SheetFacts.EmitsIff | pages/components/ExcelViewer.tsx:74-77 | the two-stage filter emits a pair iff one of its two cells is truthy and the sub-item is neither undefined nor null, so a pair of falsy cells, or an undefined or null sub-item, never emits, and a defined falsy sub-item with truthy data does |
| SheetFacts.EmitsWithinRow | pages/components/ExcelViewer.tsx:74-75 | a pair beyond the end of a short (ragged) row reads undefined cells and never emits |
| SheetFacts.PairCountIff | pages/components/ExcelViewer.tsx:71 | the outer loop visits pair k exactly when 2k < maxCol |
| SheetFacts.ScannedPositionsIff | pages/components/ExcelViewer.tsx:71-77 | after pairs 0..k-1 and rows 1..i-1 of pair k, the positions visited so far that emit are exactly the data-row positions in that range that pass the filter |
| SheetFacts.ScannedPositionsSorted | pages/components/ExcelViewer.tsx:71-73 | those positions are strictly increasing: first by pair, then by row |
| SheetFacts.ScannedLength | pages/components/ExcelViewer.tsx:76-82 | the number of rows pushed so far equals the number of emitting positions visited so far |
| SheetFacts.ScannedRowsAt | pages/components/ExcelViewer.tsx:74-82 | the j-th row pushed so far holds the sub-item, the data value and the sheet name read at the j-th emitting position |
| SheetFacts.EmittingPositionsIff | pages/components/ExcelViewer.tsx:71-77 | a position of a sheet emits iff it is in a data row (row 0 never emits) and its pair passes the filter; every such pair lies below maxCol |
| SheetFacts.EmittingPositionsSorted | pages/components/ExcelViewer.tsx:71-73 | a sheet's output is in column-pair order first and row order second, with no position repeated |
| SheetFacts.SheetBodyRowsAt | pages/components/ExcelViewer.tsx:74-82 | a sheet's data rows correspond one for one, in order, to its emitting positions, each row holding the cells read there |
| SheetFacts.ScannedDataRows | pages/components/ExcelViewer.tsx:75-82 | every row pushed so far carries the sheet name and a defined sub-item, its data is defined, and at least one of the two is truthy |
| SheetFacts.SheetBodyDataRows | pages/components/ExcelViewer.tsx:75-82 | every data row of a sheet carries that sheet's name and passes the filter, so none of them equals the separator |
| SheetFacts.SheetOutputSeparator | pages/components/ExcelViewer.tsx:88-95 | a sheet contributes nothing iff it emits no data row; otherwise it contributes exactly one separator, as its last row |
| SheetFacts.ScannedHeaderOnly | pages/components/ExcelViewer.tsx:73 | with only a header row, the row loop visits nothing, for any number of pairs |
| SheetFacts.DegenerateSheet | pages/components/ExcelViewer.tsx:69-95 | a grid with at most one row, or with no columns, yields no row and no separator |
| SheetFacts.ScannedBound | pages/components/ExcelViewer.tsx:71-73 | after k pairs and i-1 rows, at most k*(rows-1) + (i-1) rows have been pushed |
| SheetFacts.SheetBodyBound | pages/components/ExcelViewer.tsx:69-73 | a sheet emits at most (rows-1) * ceil(maxCol/2) data rows |
| SheetFacts.ScannedSameData | pages/components/ExcelViewer.tsx:73-75 | the scan reads only rows 1 and later: two grids with the same data rows scan the same |
| SheetFacts.ScannedEmptyPair | pages/components/ExcelViewer.tsx:71-77 | a pair that lies beyond the end of every data row pushes nothing |
| SheetFacts.ScannedPastData | pages/components/ExcelViewer.tsx:69-71 | when a header row widens maxCol, the extra pairs it adds to the scan push nothing |
| SheetFacts.DataWidth | pages/components/ExcelViewer.tsx:69 | every data row fits within the longest data row, and that is at most maxCol |
| SheetFacts.HeaderIndependence | pages/components/ExcelViewer.tsx:69-95 | two grids that differ only in the header row give the same rows and the same separator |
| SheetFacts.ScenarioWidth | pages/components/ExcelViewer.tsx:69 | the example sheet with header ["A","B"] is two columns wide |
| SheetFacts.ScenarioRows | pages/components/ExcelViewer.tsx:73-82 | the example's row loop gives ("1","x"), ("","y") and ("2","") for sheet S1 |
| SheetFacts.ScenarioOneSheet | pages/components/ExcelViewer.tsx:69-95 | the example sheet yields those three rows and then one separator |
| Selection.Flag | pages/components/ExcelViewer.tsx:66 | definition, no contract; `checkedSheets[f]?.[s]`, stated by ToggleFlips and FlattenFlagsOnly |
| Selection.AnyChecked | pages/components/ExcelViewer.tsx:179-181 | definition, no contract; the gating expression, stated by AnyCheckedIff |
| Selection.Toggle | pages/components/ExcelViewer.tsx:46-54 | definition, no contract; the checkbox update, stated by ToggleFlips, ToggleTwice, ToggleDefined and ToggleWellFormed |
| Selection.Unchecked | pages/components/ExcelViewer.tsx:37-38 | definition, no contract; a file's initial flags, stated by UncheckAll and LoadedNothingChecked |
| Selection.PutFile | pages/components/ExcelViewer.tsx:36 | definition, no contract; `map[file.name] = ...`, stated by PutFileEntries, PutFileNames, PutFileUnique and PutFileOrder |
| Selection.Loaded | pages/components/ExcelViewer.tsx:30-39 | definition, no contract; the state a file selection builds, stated by LoadFiles and the Loaded* lemmas |
| Selection.AnyCheckedIff | pages/components/ExcelViewer.tsx:179-181 | the gating `some`/`some(Boolean)` expression holds iff some (file, sheet) flag is true |
| Selection.ToggleFlips | pages/components/ExcelViewer.tsx:46-54 | the toggle fails exactly for a file with no entry; otherwise it negates the one flag (a missing sheet counts as unchecked) and keeps every other flag, every other file's map and the set of files |
| Selection.ToggleTwice | pages/components/ExcelViewer.tsx:46-54 | toggling twice restores every flag, and restores the whole map when the sheet already had an entry |
| Selection.ToggleDefined | pages/components/ExcelViewer.tsx:46-54 | in a well-formed state, toggling a sheet of a file in the map never takes the throwing path |
| Selection.ToggleWellFormed | pages/components/ExcelViewer.tsx:46-54 | a successful toggle keeps the selection state well formed |
| Selection.UncheckAll | pages/components/ExcelViewer.tsx:37-38 | the `forEach` gives a file exactly one flag per sheet name, all false |
| Selection.FindFile | pages/components/ExcelViewer.tsx:36 | finds an entry with the given name, and returns None exactly when no entry has that name |
| Selection.PutFileEntries | pages/components/ExcelViewer.tsx:36 | assigning `map[file.name]` adds the new entry; every entry with another name keeps its value and its position, and only the same-named entry is replaced |
| Selection.PutFileNames | pages/components/ExcelViewer.tsx:36 | assigning `map[file.name]` adds the file's name to the map's names and keeps all others |
| Selection.PutFileOrder | pages/components/ExcelViewer.tsx:36 | assigning `map[file.name]` leaves the key order alone for an existing name and appends a new name at the end |
| Selection.PutFileUnique | pages/components/ExcelViewer.tsx:36 | assigning `map[file.name]` keeps names unique, and the map grows only for a new name |
| Selection.LoadFiles | pages/components/ExcelViewer.tsx:30-39 | the selection loop builds exactly `Loaded`, and abandons the batch at the first decode failure |
| Selection.LoadedFailureSticks | pages/components/ExcelViewer.tsx:33-35 | once one file has failed to decode, the rest of the batch cannot recover the load |
| Selection.LoadedNoneIff | pages/components/ExcelViewer.tsx:33-35 | a batch load fails iff some file in it fails to decode |
| Selection.LoadedEntries | pages/components/ExcelViewer.tsx:33-38 | after a load, each entry holds the sheets of the last file chosen under its name, and each of those sheets has a false flag |
| Selection.LoadedUnique | pages/components/ExcelViewer.tsx:36 | after a load, no two entries share a name |
| Selection.LoadedFileNames | pages/components/ExcelViewer.tsx:33-36 | after a load, there is one entry per distinct file name in the batch |
| Selection.LoadedCheckedKeys | pages/components/ExcelViewer.tsx:33-37 | after a load, there is one flag map per distinct file name in the batch |
| Selection.LoadedWellFormed | pages/components/ExcelViewer.tsx:30-39 | a load yields a well-formed state: unique names, one flag map per file, and a flag for every sheet |
| Selection.FileOrderFacts | pages/components/ExcelViewer.tsx:33-36 | the first-occurrence order of a batch lists every file name of the batch exactly once |
| Selection.LoadedOrder | pages/components/ExcelViewer.tsx:33-36 | after a load, the entries are in the order in which their names first occur in the batch, the order `for...in` later visits |
| Selection.LoadedNothingChecked | pages/components/ExcelViewer.tsx:37-38 | right after a load every flag is false, so processing is disabled |
| Processing.FileOutput | pages/components/ExcelViewer.tsx:65-96 | definition, no contract; one file's contribution, stated by ProcessFile and the FileOutput* lemmas |
| Processing.Flatten | pages/components/ExcelViewer.tsx:60-106 | definition, no contract; the whole result, stated by ProcessFiles and the Flatten* lemmas |
| Processing.ProcessFiles | pages/components/ExcelViewer.tsx:59-107 | the file loop accumulates exactly `Flatten` of the file map and the flags |
| Processing.ProcessFile | pages/components/ExcelViewer.tsx:65-97 | the sheet loop appends exactly the file's `FileOutput` to what was already accumulated |
| Processing.FileOutputAppend | pages/components/ExcelViewer.tsx:65 | sheets are visited in workbook order: the output for a split list of sheets is the concatenation of the two outputs |
| Processing.FlattenAppend | pages/components/ExcelViewer.tsx:60 | files are visited in file-map order: the output for a split file map is the concatenation of the two outputs |
| Processing.FileOutputUnchecked | pages/components/ExcelViewer.tsx:66 | a file with no checked sheet contributes nothing |
| Processing.FlattenUnchecked | pages/components/ExcelViewer.tsx:60-66 | when no flag is set, the result is empty |
| Processing.FlattenNeedsSelection | pages/components/ExcelViewer.tsx:60-66 | when the gating predicate is false the result is empty; a non-empty result implies that the predicate holds |
| Processing.FileOutputFlagsOnly | pages/components/ExcelViewer.tsx:66 | one file's output depends on the flags only through each sheet's optional-chained flag |
| Processing.FlattenFlagsOnly | pages/components/ExcelViewer.tsx:66 | two flag maps that agree on every flag give the same result |
| Processing.FileOutputEndsWithSeparator | pages/components/ExcelViewer.tsx:89-95 | a non-empty file output ends with a separator |
| Processing.FlattenEndsWithSeparator | pages/components/ExcelViewer.tsx:89-105 | a non-empty result ends with a separator: the last contributing sheet's separator is kept at the end |
| Processing.FileOutputSeparators | pages/components/ExcelViewer.tsx:89-95 | a file's output holds one separator per checked sheet of that file that emits data |
| Processing.FlattenSeparators | pages/components/ExcelViewer.tsx:89-105 | the result holds exactly one separator per checked sheet that emits data, and no separator for any other sheet or for a file |
| Processing.FileOutputOrigins | pages/components/ExcelViewer.tsx:65-82 | every row of a file's output is either a separator or a data row of one of its checked sheets |
| Processing.FlattenOrigins | pages/components/ExcelViewer.tsx:60-82 | only checked sheets contribute: every row is either a separator or a data row of a checked sheet of some file |
| Processing.TwoSheetScenario | pages/components/ExcelViewer.tsx:65-95 | two checked sheets that emit one row each give four rows: each sheet's row followed by its separator |
| Export.DownloadXlsx | pages/components/ExcelViewer.tsx:112-118 | nothing is downloaded iff the result is empty; otherwise the rows go unchanged into sheet "ProcessedData" of "processed_data.xlsx" |
| Export.DownloadCsv | pages/components/ExcelViewer.tsx:121-132 | nothing is downloaded iff the result is empty; otherwise the rows go unchanged, as "text/csv", into "processed_data.csv" |
| Export.DownloadsAgree | pages/components/ExcelViewer.tsx:113-122 | both downloads are offered for the same results and carry the same rows |
| Viewer.ExcelViewer.constructor | pages/components/ExcelViewer.tsx:20-22 | the component starts with no files, no flags and no results |
| Viewer.ExcelViewer.HandleFileSelection | pages/components/ExcelViewer.tsx:26-43 | a missing file list or a failed decode changes nothing; otherwise the file map and the flags are replaced by the loaded batch, every flag false, and the results are cleared |
| Viewer.ExcelViewer.HandleSheetCheckboxChange | pages/components/ExcelViewer.tsx:46-54 | the flags become the toggled flags, or stay as they were when the toggle throws, which from a valid state cannot happen for a file in the map; nothing else changes, and well-formedness is kept |
| Viewer.ExcelViewer.HandleProcessFiles | pages/components/ExcelViewer.tsx:57-109 | the results become the flattened checked sheets; the file map and the flags do not change |
| Viewer.ExcelViewer.CanProcess | pages/components/ExcelViewer.tsx:177-182 | the process button is enabled iff nothing is loading and some (file, sheet) flag is true |
| Viewer.ExcelViewer.HandleDownloadXlsx | pages/components/ExcelViewer.tsx:112-118 | the workbook download is offered iff there are results |
| Viewer.ExcelViewer.HandleDownloadCsv | pages/components/ExcelViewer.tsx:121-132 | the CSV download is offered iff there are results |

## Left out

- Decoding and encoding (`XLSX.read`, `sheet_to_json`, `json_to_sheet`, `sheet_to_csv`, `book_new`, `book_append_sheet`, `writeFile`) are foreign library calls. The model takes decoded sheet names and grids as input data, and it hands the rows to the encoder unchanged.
- `file.arrayBuffer()` is asynchronous I/O. React's state setters and the `loading` flag are UI plumbing. `CanProcess` therefore takes `loading` as a parameter.
- Downloads through Blob, object URLs and anchor clicks are host I/O.
- JSX rendering is left out, and so is `pages/index.tsx`, which is not part of this model.
- The `fileHasData` flag is left out. The code writes it but never reads it, and its only use is commented out.
- JavaScript orders object keys that look like integers ahead of the other keys. The model keeps the file map in insertion order, as a sequence.
- Numbers are integers. Floating-point values, dates and NaN are not modelled.
- Decoded sheet names are taken to be unique within a workbook, as the file format requires.
- Spreading a very large array into `Math.max` can make the engine throw. The model does not cover this.
- Processing re-decodes each file. The model reuses the grids decoded at load and assumes decoding is deterministic.
- ScanSheet returns the sheet's rows, and the caller appends them to the accumulated result. Pushing each row onto `allData` as it is produced gives the same sequence.
- ProcessFiles runs the sheet loop through a separate method, ProcessFile, so that the two loops verify separately.
- Selection.Toggle does not throw: a file with no entry gives `None`, and the handler then keeps its state unchanged. In the component the updater throws instead. The checkboxes are rendered only for files in the map, and from a well-formed state such a toggle always succeeds (`ToggleDefined`).
