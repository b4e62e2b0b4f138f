# NPD scan-data aggregation, modelled in Dafny

This project models the engine that turns NPD retail scan data into per-category summary
tables. For every product category, a fresh `DataReader` walks the eleven survey years
(2001–2011, numbered 1 to 11). Within each year it visits the three outlets in order:
drug stores, grocery stores, and the MA household panel. The steps are:

- **Reference.** In years 1, 7 and 8, the brand reference (UPC key to brand) is extended
  from the cohort's stub workbook. Rows without a UPC are skipped, dashes are removed
  from the UPC, and the last row for a key wins. The reference is never cleared.
- **Zero matrices.** The year's week range is computed: 52 weeks, or 53 in year 6, with
  a one-week shift from year 7 on. Two fresh brand × week matrices of zeroes are made,
  one for sales and one for units, with the reference's brands as rows.
- **Store file.** The outlet's file is opened. Its name depends on the outlet, and its
  first line decides the delimiter. Every row gets a UPC key, by one of two policies:
  - policy A: the four fields SY, GE, VEND and ITEM zero-padded to widths 2, 2, 5 and 5;
  - policy B: the decimal text of COLUPC cut at fixed offsets from its end.

  Every row then gets the brand the reference gives its key.
- **Per-store work.**
  - An occurrence frame (1 where a brand sold in a week, 0 elsewhere) is appended to
    `occ_list`.
  - DOLLARS and UNITS are summed per (brand, week). Each sum is added in place to its one
    cell of the sales or units matrix.
  - The panel files of the year's directory are concatenated and appended to
    `panel_list`.
  - The progress count goes up by one.
- **End of year.** The finished matrices are appended to `sales_list` and `units_list`.
- **End of category.** The final products are computed:
  - occurrence, as the per-brand maximum;
  - total sales and total units, as per-brand sums;
  - unit price, as sales divided by units;
  - the concatenated panel data.

Modules, one per file:

- `wrappers.dfy`: `Option`, `Result` and `Outcome`.
- `globals.dfy`: the settings constants (years, outlets, week anchors, stub directories).
- `records.dfy`: what is read, as values: parsed rows, directory listings, stub sheets, and
  the exceptions the code raises.
- `collections.dfy`: pandas index helpers (`get_loc`, a set listed as an index) and sums.
- `text.dfy`: Python's `str`, `'{:0Nd}'.format`, `zfill`, and dash removal.
- `upc_keys.dfy`: the two key policies and why they agree.
- `weeks.dfy`: the week range of a year.
- `tables.dfy`: brand × week frames and the pandas reductions: `get_dummies` + max,
  `groupby` + sum, `concat` + max, `concat` + sum, division, and row concatenation.
- `datareader.dfy`: the `DataReader` class and the reading and key-resolution steps.
- `helperfunc.dfy`: the per-store steps, including the in-place scatter-add into the
  matrices.
- `driver.dfy`: `update_pbar`, `final_product` and `main`.

The model follows the code's own behaviour, including where it is surprising:

- A missing reference key, an unknown label in `get_loc`, a missing file, or an empty list
  given to `pd.concat` ends the whole run. Nothing catches these exceptions.
- `panels` runs once per outlet and rescans the same year directory each time, so each
  year's panel data enters `panel_list` three times.
- Cells that no collected frame has stay NaN after the max reduction; they are absent
  cells in the model. The sum reduction counts NaN as 0 and so fills its whole grid.
- The result of `round(2)` on the unit price is discarded, so the unit price is not rounded.
- Division where the summed units are 0, or where a side is missing, is written `None`
  (NaN or an infinity in pandas).
- Policy B raises IndexError on a COLUPC of fewer than 11 digits. This is the case when
  SY and GE are both 0.

## Model

| member | source | states |
|---|---|---|
| Text.NatToString | npd/release/src/datareader.py:124 | `str(n)` is a non-empty digit string with no leading zero, and has one character exactly when n < 10 |
| Text.NatToStringValue | npd/release/src/datareader.py:124 | reading the digits of `str(n)` back gives n, so `str` spells the number and nothing else |
| Text.IntToString | npd/release/src/datareader.py:72-73 | `str(i)` starts with '-' exactly when i is negative |
| Text.IntToStringValue | npd/release/src/datareader.py:72-73 | the digits of `str(i)` after its sign spell the magnitude of i |
| Text.FormatWidth | npd/release/src/datareader.py:119 | `'{:0Nd}'` gives digits only and at least N of them; exactly N when the number fits in N digits, and never truncates |
| Text.ZFill | npd/release/src/datareader.py:124 | `zfill` pads to the width and never truncates; a string at least that long is unchanged; on digits the value is kept |
| Text.RemoveDashes | npd/release/src/datareader.py:64 | the cleaned UPC has no '-' and is no longer than the input; a UPC without dashes is unchanged |
| Text.RemoveDashesAppend | npd/release/src/datareader.py:64 | cleaning a concatenation cleans each part and joins them |
| Text.RemoveDashesJoin | npd/release/src/datareader.py:64 | cleaning a + '-' + b gives the cleaned a followed by the cleaned b, so every other character is kept in order |
| Collections.IndexOf | release/src/helperfunc.py:53-54 | `get_loc` finds a position exactly when the label is present; the label is at that position and at no earlier one |
| Collections.Enumerate | npd/release/src/datareader.py:85 | the set of brands listed as an index: every brand exactly once |
| Collections.SumPermutation | npd/release/src/datareader.py:157 | a sum does not depend on the order of its terms |
| Collections.FlattenThrees | npd/release/src/main.py:63-78 | with three entries per year, entry k of the collected list is entry k % 3 of year k / 3 |
| Weeks.TruncDivBounds | npd/release/src/datareader.py:79-80 | `int(time/7)` rounds toward zero: down for a non-negative dividend, up for a negative one |
| Weeks.WeekRange | npd/release/src/datareader.py:78-83 | year 6 has 53 weeks, every other year 52; year 1 is weeks 1114 to 1165 and year 6 is 1374 to 1426 |
| Weeks.WeeksContiguous | npd/release/src/datareader.py:78-83 | for years 1 to 10, the next year starts the week after this one ends |
| Weeks.WeeksOrdered | npd/release/src/datareader.py:78-83 | an earlier survey year ends before any later one begins |
| Weeks.WeeksCovered | npd/release/src/datareader.py:78-83 | the years up to t cover every week from 1114 to the end of year t |
| Weeks.WeekHasOneYear | npd/release/src/datareader.py:78-83 | every week of the survey lies in exactly one year's range |
| UpcKeys.KeyFromFields | npd/release/src/datareader.py:119 | policy A gives a digit key of at least 14 characters, exactly 14 when the fields fit their widths |
| UpcKeys.KeyFromColupc | npd/release/src/datareader.py:124 | policy B gives a key exactly when the text has at least 11 characters; on digit text the key is digits of length at least 14 |
| UpcKeys.PoliciesAgree | npd/release/src/datareader.py:119-124 | policy B on `str(COLUPC)` gives the policy A key of the same four fields, when GE < 10 and SY, GE are not both 0 |
| UpcKeys.PolicyBNeedsLeadingFields | npd/release/src/datareader.py:124 | when SY and GE are both 0, policy B raises on the COLUPC text |
| UpcKeys.KeyFieldsRoundTrip | npd/release/src/datareader.py:119 | cutting a policy A key at widths 2, 2, 5, 5 and parsing each part gives back the four fields |
| UpcKeys.KeyFromFieldsInjective | npd/release/src/datareader.py:119 | two products whose fields fit share a policy A key only if all four fields agree |
| UpcKeys.DashedUpcCleansToKey | npd/release/src/datareader.py:64 | a reference UPC written as the four padded fields joined by '-' cleans to the policy A key |
| DataReaders.StubPath | npd/release/src/datareader.py:49-59 | a stub workbook is read exactly in years 1, 7 and 8 |
| DataReaders.InsertStubRow | npd/release/src/datareader.py:62-67 | a row without a UPC changes nothing; otherwise its cleaned UPC maps to its brand, and every other key keeps its brand |
| DataReaders.ReferenceKeeps | npd/release/src/datareader.py:62-67 | entering stub rows never removes a key from the reference |
| DataReaders.ReferenceUntouched | npd/release/src/datareader.py:62-67 | a key that no row enters keeps its presence and its brand; rows with no UPC change nothing |
| DataReaders.ReferenceLastWriteWins | npd/release/src/datareader.py:66-67 | the last row that enters a key decides its brand |
| DataReaders.ReferenceNewKeys | npd/release/src/datareader.py:62-64 | every key the rows add has no '-' and is the cleaned UPC of one of the rows |
| DataReaders.TargetDirsDiffer | npd/release/src/datareader.py:72-73 | two different years of a category read two different directories |
| DataReaders.StoreFileName | npd/release/src/datareader.py:99-100 | the MA outlet's file name contains `_PANEL_` |
| DataReaders.OutletFilesDiffer | npd/release/src/datareader.py:99-100 | the three outlets of a year read three different files |
| DataReaders.FindEntry | npd/release/src/datareader.py:102-105 | a file is found exactly when the listing has an entry of that name, and it is that entry's file |
| DataReaders.ReadDataFile | npd/release/src/datareader.py:102-109 | FileNotFoundError exactly when the directory or file is missing; otherwise the rows come from the file, parsed comma-delimited iff its first line holds a comma; else EmptyDataError |
| DataReaders.KeyOf | npd/release/src/datareader.py:117-125 | a record gets a key iff it has the columns of its outlet's policy and, for MA, its COLUPC text has at least 11 characters; the key is that policy's, all digits and at least 14 long; a short COLUPC raises IndexError |
| DataReaders.UpcColumn | npd/release/src/datareader.py:117-124 | every record's key in order, or else the error of the first record that has no key |
| DataReaders.BrandColumn | npd/release/src/datareader.py:120-125 | `ref[upc]` for every key in order, or else KeyError for the first key the reference lacks |
| DataReaders.Resolve | npd/release/src/datareader.py:113-125 | succeeds exactly when every record has a key in the reference; then row i carries record i's key, that key's brand, and its week, dollars and units |
| DataReaders.Snapshot | npd/release/src/datareader.py:87-88 | a matrix read as a frame: rows and columns are the labels, every cell is present, and cell (rows[i], cols[j]) is a[i, j] |
| DataReaders.ZeroMatrix | npd/release/src/datareader.py:87 | a fresh matrix of the given shape, every cell 0 |
| DataReaders.ZeroFrames | npd/release/src/datareader.py:85-88 | the brands listed once each, the weeks beg..end in order, and two distinct fresh zero matrices of that shape |
| DataReaders.DataReader.constructor | npd/release/src/datareader.py:29-42 | an empty reference and four empty lists |
| DataReaders.DataReader.CreateReference | npd/release/src/datareader.py:45-67 | other years leave the reference as it was; a missing workbook raises; otherwise the reference is the old one with the sheet's rows entered in order |
| DataReaders.DataReader.CreateZeroes | npd/release/src/datareader.py:70-88 | sets the year's directory and week range; rows are the reference's brands, columns the weeks in order, in two fresh matrices of zeroes |
| DataReaders.DataReader.ReformatUpc | npd/release/src/datareader.py:113-126 | succeeds exactly when every record resolves; then `data` holds the resolved rows, and on failure it raises that error |
| DataReaders.DataReader.StoreData | npd/release/src/datareader.py:91-110 | records category, year and store; the file read is the outlet's file in the year's directory; errors from reading and from resolving are raised |
| DataReaders.DataReader.Occurrence | npd/release/src/datareader.py:144-147 | an empty list raises; otherwise a cell is present iff some frame has it, it bounds every frame's value there, and it equals one of them |
| DataReaders.DataReader.Sales | npd/release/src/datareader.py:154-157 | an empty list raises; otherwise the total sales are dense, and every cell is the sum over the year snapshots of their value there |
| DataReaders.DataReader.Units | npd/release/src/datareader.py:164-176 | an empty list, or `sales()` not yet run, raises; otherwise every numeric price cell is the total sales divided by non-zero summed units |
| DataReaders.DataReader.Panels | npd/release/src/datareader.py:183-187 | an empty list raises; otherwise the result holds exactly the rows of every collected panel frame |
| DataReaders.DataReader.SalesFrame | npd/release/src/main.py:84 | the frame appended to `sales_list` has the matrix's labels and its cells |
| DataReaders.DataReader.UnitsFrame | npd/release/src/main.py:87 | the frame appended to `units_list` has the matrix's labels and its cells |
| Tables.MaxMergeAt | npd/release/src/datareader.py:146-147 | two stacked frames merged by max: a cell is present iff either has it, is at least each one's number, and is one of them |
| Tables.CombineMaxAt | npd/release/src/datareader.py:146-147 | a combined cell is present iff some frame has it, is at least every frame's value there, and is one of them |
| Tables.CombineMaxLabels | npd/release/src/datareader.py:146-147 | the combined rows and columns are the union of every frame's |
| Tables.CombineMaxBySet | npd/release/src/datareader.py:146-147 | the max reduction depends only on which frames were collected |
| Tables.CombineMaxPermutation | npd/release/src/datareader.py:146-147 | reordering the occurrence list does not change the max reduction |
| Tables.CombineMaxRepeat | npd/release/src/datareader.py:146-147 | collecting a frame again does not change the max reduction |
| Tables.DummyRowOneHot | release/src/helperfunc.py:41 | a `get_dummies` row is one-hot: dense over its brand and the file's weeks, 1 under its own week and 0 elsewhere |
| Tables.OccurrenceLabels | release/src/helperfunc.py:40-41 | the occurrence frame's rows are the file's brands and its columns the file's weeks |
| Tables.OccurrenceCell | release/src/helperfunc.py:40-41 | a cell is present iff its brand and week occur in the file, and it is 1 iff some row has both, else 0 |
| Tables.OccurrenceCells | release/src/helperfunc.py:40-41 | the occurrence frame is dense over brands × weeks of the file, with 1 exactly where a row has that brand and week |
| Tables.SumAtAbsent | release/src/helperfunc.py:49 | a (brand, week) pair that no row has sums to 0 |
| Tables.SumAtAppend | release/src/helperfunc.py:49 | the grouped sum over two files is the sum of their grouped sums |
| Tables.SumAtPermutation | release/src/helperfunc.py:49 | the grouped sum does not depend on the order of the rows |
| Tables.AccumulatedNothing | release/src/helperfunc.py:57 | adding no rows into a matrix changes nothing |
| Tables.AccumulatedAppend | release/src/helperfunc.py:57 | adding two files into a matrix one after the other is adding their rows at once |
| Tables.AccumulatedFromZero | npd/release/src/main.py:61-81 | adding a year's rows into the zero matrix gives a dense matrix whose every cell is the year's total for that brand and week |
| Tables.SumMergeAt | npd/release/src/datareader.py:156-157 | two stacked frames summed: dense over the union of their labels, each cell their numbers added with NaN as 0 |
| Tables.CombineSumAt | npd/release/src/datareader.py:156-157 | the summed frame is dense, and each cell is the sum over the frames of their value there (NaN counted as 0) |
| Tables.CombineSumLabels | npd/release/src/datareader.py:156-157 | the summed rows and columns are the union of every frame's |
| Tables.CombineSumPermutation | npd/release/src/datareader.py:156-157 | reordering the snapshot list does not change the sum reduction |
| Tables.UnitPrice | npd/release/src/datareader.py:174-175 | the quotient covers the union of labels; a cell is a number iff both sides have one and units are non-zero, and then price × units = sales |
| Tables.UnitPriceOfSums | npd/release/src/datareader.py:168-175 | a numeric unit price is the total sales divided by the non-zero sum of the units snapshots |
| Tables.ConcatRowsMembers | npd/release/src/datareader.py:187 | the concatenation holds exactly the rows of the parts |
| Tables.ConcatRowsAppend | release/src/helperfunc.py:97 | concatenating two lists of parts concatenates their results |
| HelperFunc.Occurrence | release/src/helperfunc.py:36-42 | appends exactly one frame, whose rows are the file's brands, columns its weeks, and cells 1 iff a row has that brand and week |
| HelperFunc.Locate | release/src/helperfunc.py:53-54 | every label's position in turn, or else a label the index lacks |
| HelperFunc.AddAt | release/src/helperfunc.py:57 | with distinct pairs, every addressed cell gets exactly its own total added and every other cell is unchanged |
| HelperFunc.LocateKeys | release/src/helperfunc.py:49-54 | positions for every grouped pair iff all brands and weeks are labels; otherwise KeyError for a missing brand first, then for a missing week |
| HelperFunc.GroupedTotals | release/src/helperfunc.py:49 | each grouped total is the sum over that pair's rows, and a pair with no total sums to 0 |
| HelperFunc.ScatterAdd | release/src/helperfunc.py:49-57 | succeeds iff every brand and week is a label; then every cell grows by its pair's total, and cells with no row are unchanged; on failure nothing is written |
| HelperFunc.GroupedLabels | release/src/helperfunc.py:49-51 | the brands and weeks of the grouped index are exactly those of the file |
| HelperFunc.Sales | release/src/helperfunc.py:45-58 | each sales cell grows by the file's DOLLARS for that brand and week; the units matrix is untouched |
| HelperFunc.Units | release/src/helperfunc.py:61-73 | each units cell grows by the file's UNITS for that brand and week; the sales matrix is untouched |
| HelperFunc.AccumulationOrder | release/src/helperfunc.py:57 | adding two files' totals gives the same cell in either order, and the same as adding their rows at once |
| HelperFunc.PanelEntries | release/src/helperfunc.py:80 | keeps exactly the directory entries whose name contains `_PANEL_` |
| HelperFunc.PanelPartsSource | release/src/helperfunc.py:83-94 | every gathered part was parsed from one of the files |
| HelperFunc.PanelPartsComplete | release/src/helperfunc.py:83-94 | every file with something to parse contributes its parsed rows |
| HelperFunc.PanelPartsEmpty | release/src/helperfunc.py:83-94 | no part is gathered exactly when every file raises EmptyDataError |
| HelperFunc.PanelDataSource | release/src/helperfunc.py:80-97 | every panel row comes from a non-empty file whose name contains `_PANEL_` |
| HelperFunc.PanelDataComplete | release/src/helperfunc.py:80-97 | every row of every non-empty file whose name contains `_PANEL_` is in the panel data |
| HelperFunc.Panels | release/src/helperfunc.py:76-99 | appends exactly one frame, the directory's panel data, iff some panel file has data; otherwise concatenating raises |
| Driver.UpdatePbar | npd/release/src/main.py:18-22 | the progress count grows by exactly one |
| Driver.FinalProduct | npd/release/src/main.py:36-44 | succeeds iff all four lists are non-empty; then its results are the max, sum, quotient and concatenation of the lists, with units after sales |
| Driver.ProcessCategory | npd/release/src/main.py:56-87 | a fresh reader; progress grows by years × outlets; every year's directory exists; the reference and the four lists are those the eleven years build in turn |
| Driver.CollectYears | npd/release/src/main.py:59-87 | the same for any list of years, one year at a time, with the directories checked year by year |
| Driver.CategoryAfterStep | npd/release/src/main.py:59 | one more year of the loop adds exactly what that year adds to the lists before it |
| Driver.CategoryAfterListed | npd/release/src/main.py:59-87 | the lists the loop builds are the ones described entry by entry |
| Driver.CategoryStep | npd/release/src/main.py:59-87 | one more year adds to the entry-by-entry description what the year adds |
| Driver.RefStep | npd/release/src/datareader.py:45-67 | the reference after one more year is the one before it with that year's cohort entered |
| Driver.TablesStep | npd/release/src/main.py:84-87 | one more year appends its finished matrix to the sales (or units) list |
| Driver.OccurrencesStep | npd/release/src/main.py:63-69 | one more year appends its three outlets' occurrence frames |
| Driver.PanelsStep | npd/release/src/main.py:63-78 | one more year appends three copies of its directory's panel data |
| Driver.CategoryEntries | npd/release/src/main.py:59-87 | sales and units entry k is year k's finished matrix: a row per brand of the reference so far, a column per week of the year, each cell the total over its three files; occurrence entry k is year k / 3's outlet k % 3 frame; panel entry k is year k / 3's directory data |
| Driver.DirsPresentStep | npd/release/src/main.py:59-66 | one more year has its directory iff the years before do and its own exists |
| Driver.DirsPresentAll | npd/release/src/main.py:59-66 | the year-by-year check holds iff every year's directory exists |
| Driver.RunYear | npd/release/src/main.py:60-87 | one year: progress +3; the reference gains the cohort, the year's finished sales and units matrices are appended, then its three occurrence frames and three copies of its panel data; earlier entries are kept |
| Driver.YearClosed | npd/release/src/main.py:60-87 | starting from zero matrices, the outlet loop followed by the snapshots adds exactly what the year adds |
| Driver.YearFinished | npd/release/src/main.py:61-87 | from zero matrices, the outlet loop leaves the year's finished matrices, its occurrence frames and three copies of the panel data |
| Driver.StartYear | npd/release/src/main.py:60-61 | a missing workbook raises; otherwise the reference gains the cohort, the directory and week range are the year's, and both matrices are zero over the reference's brands × the year's weeks |
| Driver.CloseYear | npd/release/src/main.py:84-87 | each list grows by one snapshot of its matrix and keeps its earlier entries |
| Driver.ProcessYear | npd/release/src/main.py:63-81 | the three outlets in turn: progress +3; each file's rows are added into both matrices, and its occurrence frame and the directory's panel data are collected |
| Driver.ProgressAfterRows | npd/release/src/main.py:63-81 | after s outlets, their rows have been added at once and their frames and s copies of the panel data collected in order |
| Driver.ProgressAfterAll | npd/release/src/main.py:63-81 | the same after all three outlets |
| Driver.OutletStep | npd/release/src/main.py:63-81 | outlet s's step on the result of reading its file: it goes through exactly when the file yields rows whose brands and weeks all have cells and the year's directory has panel data; then the loop's progress after s outlets becomes the progress after s + 1 |
| Driver.LoadedStep | npd/release/src/main.py:63-66 | one more outlet adds its file's rows and its occurrence frame |
| Driver.LoadStore | npd/release/src/main.py:66 | succeeds iff the store's file yields rows, leaves them in `data`, and otherwise raises the reading error |
| Driver.ProcessStore | npd/release/src/main.py:63-78 | one outlet: a reading error is raised; otherwise the step goes through exactly when every (brand, week) of the file's rows has a cell and some `_PANEL_` file of the directory parses; then the rows are added into both matrices, and the occurrence frame and the directory's panel data are appended |
| Driver.IngestStore | npd/release/src/main.py:69-78 | occurrence, sales, units and panels on the loaded rows: succeeds exactly when every loaded (brand, week) has a cell and the directory has panel data; then both matrices have accumulated the rows and both lists are appended |
| Driver.Accumulate | npd/release/src/main.py:71-75 | sales then units: succeeds exactly when every loaded (brand, week) has a cell in the matrices; then the loaded rows are added into both |
| Driver.GatherPanels | npd/release/src/main.py:78 | `panels` succeeds exactly when the directory exists and one of its `_PANEL_` files parses; then it appends the directory's panel data |
| Driver.CountOccurrence | npd/release/src/main.py:69 | `occurrence` appends the loaded file's occurrence frame, and raises when nothing is loaded |
| Driver.PerYearStep | npd/release/src/main.py:59 | one more year adds one more entry and leaves the earlier ones alone |
| Driver.PerYearThrees | npd/release/src/main.py:63 | with three entries a year, entry k of the list is entry k % 3 of year k / 3's |
| Driver.YearOccurrencesAt | npd/release/src/main.py:63-69 | entry k of the occurrence list is the frame of year k / 3's outlet k % 3 |
| Driver.YearPanelsAt | npd/release/src/main.py:59-78 | entry k of the panel list is the panel data of year k / 3's directory |
| Driver.Slice | npd/release/src/main.py:50-54 | `CATEGORY[start:]`: the categories from `start` on, in order, none when `start` is past the end |
| Driver.MappedAt | npd/release/src/main.py:54-90 | entry d of the products is the product of category d |
| Driver.MappedStep | npd/release/src/main.py:54-90 | one more category appends its product |
| Driver.CategoryRun | npd/release/src/main.py:54-90 | one category: progress grows by years × outlets and the product is the final product of the lists its eleven years build |
| Driver.Run | npd/release/src/main.py:48-92 | on success, returns SUCCESS_CODE, with progress equal to file_count = categories × years × outlets, and product i is the final product of category i from `start` |

## Left out

- Output: `export_data` and the CSV files it writes, the progress bar drawing, `print`, and logging are output only. The model returns the four final products instead.
- `load()`: the interactive prompt is input only. Its result is the `start` parameter of `Driver.Run`.
- Settings module: the directory walking, renaming and log setup in the settings module are environment side effects. Only its constants are modelled. The category list (a directory listing) is a parameter of `Driver.Run`.
- Parsing: Excel and CSV parsing (`pd.ExcelFile`, `pd.read_csv`) is library code. Files are modelled as their first line plus what pandas would parse from them with either delimiter. Stub sheets are modelled as rows of (brand, optional UPC). Panel files are read with `index_col=0`, so pandas turns their first column into the frame's index; the model keeps a panel record's fields as parsed and has no separate index.
- File system: modelled as a map from directory to its listing in order. Missing files raise FileNotFoundError.
- Numbers: floating point is modelled as exact reals.
- `DataReaders.DataReader.Units`: does not model that `unitp` aliases `total_sales`, so `/=` also overwrites the total sales frame. Nothing reads it afterwards except its export.
- `DataReaders.DataReader.StoreData`: on a failure while resolving keys, leaves `data` as it was. Python has already stored the parsed frame, partly reformatted, but the exception ends the run, so the difference is never observed.
- `DataReaders.DataReader.ReformatUpc`: on a failure, leaves `data` as it was. Python may already have written the UPC column into the frame before a lookup of the brand raises, but the exception ends the run, so the difference is never observed.
- `Collections.Enumerate`: the order of the brands in the index (Python set order) and of the grouped pairs is left open. No contract depends on it.
- `DataReaders.DataReader.constructor`: the matrices are empty 0 × 0 arrays before the first `create_zeroes`, where Python has `None`. Every path reaches them through `create_zeroes` first.
- `Driver.FinalProduct`: drops the category argument. Python uses it only for messages and export file names.
- `Driver.RunYear`, `Driver.ProcessYear`, `Driver.ProcessCategory` and `Driver.CollectYears`: on a failure, state only that the reader stays consistent, and they do not state when they succeed. The success condition is stated one outlet at a time, by `Driver.OutletStep` and `Driver.ProcessStore`. The error ends the whole run, so nothing reads the half-finished lists.
- `Driver.CategoryRun` and `Driver.Run`: state the progress and the products only when the run succeeds, and do not state for which inputs it does. That condition chains every year's reference, labels and files, and is stated one outlet at a time by `Driver.OutletStep`.
- `Driver.GatherPanels`: states when it succeeds, but not which error it raises or that a failure leaves `panel_list` alone. Both are stated by `HelperFunc.Panels`.
- Errors: an error raised inside a category ends the whole run, as in the code, which has no handler. The model does not continue with other files or categories.
- The companion video-game chart scraper is network and HTML code outside this engine.
