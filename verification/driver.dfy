/**
 * The driver: for every category from the chosen start, a fresh `DataReader` walks the
 * eleven years and, within each year, the three outlets in a fixed order, then the
 * category's final products are computed. Nothing catches an exception, so the first
 * error ends the run.
 */
module Driver {
  import opened Wrappers
  import opened Collections
  import opened Globals
  import opened Weeks
  import opened Records
  import opened Tables
  import opened DataReaders
  import opened HelperFunc

  const InitialProgress := 0
  const ProgressIncrement := 1
  const SuccessCode := 0

  /** `update_pbar`: the progress count after one more file; drawing the bar is output and left out. */
  function UpdatePbar(progress: int): (p: int)
    ensures p - progress == 1
  {
    progress + ProgressIncrement
  }

  /** What `final_product` exports for a category. */
  datatype Product = Product(occurrence: Table<int>, totalSales: Table<real>, unitPrice: Table<Option<real>>, panels: seq<Record>)

  /**
   * `final_product`: the four reductions in the order occurrence, sales, units, panels, so
   * the total sales that `units()` divides are in place when it runs.
   */
  method FinalProduct(inst: DataReader) returns (r: Result<Product, Error>)
    requires inst.Valid()
    modifies inst`totalSales
    ensures r.Ok? <==> inst.occList != [] && inst.salesList != [] && inst.unitsList != [] && inst.panelList != []
    ensures r.Err? ==> r.error == NoObjectsToConcatenate
    ensures r.Ok? ==> r.value.occurrence == CombineMax(inst.occList) && r.value.totalSales == CombineSum(inst.salesList)
    ensures r.Ok? ==> r.value.unitPrice == UnitPrice(CombineSum(inst.salesList), CombineSum(inst.unitsList))
    ensures r.Ok? ==> r.value.panels == ConcatRows(inst.panelList)
  {
    var occ := inst.Occurrence();
    if occ.Err? {
      return Err(occ.error);
    }
    var sales := inst.Sales();
    if sales.Fail? {
      return Err(sales.error);
    }
    var unitp := inst.Units();
    if unitp.Err? {
      return Err(unitp.error);
    }
    var panels := inst.Panels();
    if panels.Err? {
      return Err(panels.error);
    }
    return Ok(Product(occ.value, inst.totalSales.value, unitp.value, panels.value));
  }

  /** The weeks of survey year `time`. */
  function YearWeeks(time: int): set<Week> {
    Elems(Range(WeekRange(time).0, WeekRange(time).1))
  }

  /**
   * The body of `main`'s category loop before `final_product`: a fresh reader, then for
   * every year the reference, the zero matrices and the three outlets' files, and at the
   * end of the year a snapshot of each matrix. `CategoryEntries` says what each entry of
   * the lists is.
   */
  method ProcessCategory(cat: string, stubs: StubFiles, fs: FileSystem, progress: int)
    returns (o: Outcome<Error>, reader: DataReader, progress': int)
    ensures fresh(reader) && reader.Valid()
    ensures o.Pass? ==> progress' == progress + |Years| * |Outlets|
    ensures o.Pass? ==> Lists(reader) == CategoryAfter(cat, stubs, fs, Years)
    ensures o.Pass? ==> forall t :: t in Years ==> TargetDir(cat, t) in fs
    ensures o.Pass? ==> |reader.salesList| == |reader.unitsList| == |Years|
    ensures o.Pass? ==> |reader.occList| == |reader.panelList| == |Years| * |Outlets|
  {
    o, reader, progress' := CollectYears(cat, Years, stubs, fs, progress);
    if o.Pass? {
      DirsPresentAll(cat, fs, Years);
      CategoryEntries(cat, stubs, fs, Years, 0);
    }
  }

  /** The year loop of `ProcessCategory` over the given years, on a fresh reader. */
  method CollectYears(cat: string, years: seq<int>, stubs: StubFiles, fs: FileSystem, progress: int)
    returns (o: Outcome<Error>, reader: DataReader, progress': int)
    ensures fresh(reader) && reader.Valid()
    ensures o.Pass? ==> progress' == progress + |Outlets| * |years|
    ensures o.Pass? ==> Lists(reader) == CategoryAfter(cat, stubs, fs, years)
    ensures o.Pass? ==> DirsPresent(cat, fs, years)
  {
    reader := new DataReader();
    progress' := progress;
    o := Pass;
    var y := 0;
    while y < |years|
      invariant 0 <= y <= |years| && o.Pass?
      invariant fresh(reader) && fresh(reader.salesData) && fresh(reader.unitsData)
      invariant reader.Valid()
      invariant progress' == progress + |Outlets| * y
      invariant Lists(reader) == CategoryAfter(cat, stubs, fs, years[..y])
      invariant DirsPresent(cat, fs, years[..y])
    {
      o, progress' := RunYear(reader, cat, years[y], stubs, fs, progress');
      if o.Fail? {
        return;
      }
      CategoryAfterStep(cat, stubs, fs, years, y);
      DirsPresentStep(cat, fs, years, y);
      y := y + 1;
    }
    assert years[..y] == years;
  }

  /** The reference and the four lists the year loop builds. */
  datatype CategoryLists = CategoryLists(ref: map<string, Brand>, sales: seq<Table<real>>, units: seq<Table<real>>,
                                         occs: seq<Table<int>>, panels: seq<seq<Record>>)

  /** The reader's reference and lists. */
  function Lists(reader: DataReader): CategoryLists
    reads reader`ref, reader`salesList, reader`unitsList, reader`occList, reader`panelList
  {
    CategoryLists(reader.ref, reader.salesList, reader.unitsList, reader.occList, reader.panelList)
  }

  /**
   * What one year adds: the reference grows by the year's cohort, the year's finished
   * sales and units matrices (a row per brand of that reference, a column per week of the
   * year, the rows of its three files added up in the cells) are appended, and so are the
   * occurrence frames of its three files and three copies of its directory's panel data.
   */
  function YearAdded(l: CategoryLists, cat: string, stubs: StubFiles, fs: FileSystem, time: int): CategoryLists {
    var ref := WithCohort(l.ref, cat, time, stubs);
    CategoryLists(ref,
      l.sales + [YearTable(ref.Values, YearWeeks(time), YearRows(fs, cat, time, ref), Dollars)],
      l.units + [YearTable(ref.Values, YearWeeks(time), YearRows(fs, cat, time, ref), Measure.Units)],
      l.occs + YearOccs(fs, cat, time, ref),
      l.panels + Thrice(DirPanel(fs, TargetDir(cat, time))))
  }

  /** The reference and lists after the given years, from a fresh reader: `YearAdded` year after year. */
  function CategoryAfter(cat: string, stubs: StubFiles, fs: FileSystem, years: seq<int>): CategoryLists {
    if |years| == 0 then CategoryLists(map[], [], [], [], [])
    else YearAdded(CategoryAfter(cat, stubs, fs, years[..|years| - 1]), cat, stubs, fs, years[|years| - 1])
  }

  /** One more year of the loop is `YearAdded` on the lists of the years before it. */
  lemma CategoryAfterStep(cat: string, stubs: StubFiles, fs: FileSystem, years: seq<int>, y: nat)
    requires y < |years|
    ensures CategoryAfter(cat, stubs, fs, years[..y + 1]) == YearAdded(CategoryAfter(cat, stubs, fs, years[..y]), cat, stubs, fs, years[y])
  {
    assert years[..y + 1][..y] == years[..y];
  }

  /**
   * The same lists described entry by entry: the reference of all the years' cohorts, a
   * matrix per year, the occurrence frames of every year's outlets and every year's panel
   * data three times.
   */
  function CategoryListed(cat: string, stubs: StubFiles, fs: FileSystem, years: seq<int>): CategoryLists {
    CategoryLists(RefAfter(cat, stubs, years), YearTables(cat, stubs, fs, years, Dollars), YearTables(cat, stubs, fs, years, Measure.Units),
                  YearOccurrences(cat, stubs, fs, years), YearPanels(cat, fs, years))
  }

  /** Every one of the years has its directory, checked year by year. */
  predicate DirsPresent(cat: string, fs: FileSystem, years: seq<int>) {
    |years| == 0 || (DirsPresent(cat, fs, years[..|years| - 1]) && TargetDir(cat, years[|years| - 1]) in fs)
  }

  /** One more year is present when the years before it are and its directory is. */
  lemma DirsPresentStep(cat: string, fs: FileSystem, years: seq<int>, y: nat)
    requires y < |years|
    ensures DirsPresent(cat, fs, years[..y + 1]) <==> DirsPresent(cat, fs, years[..y]) && TargetDir(cat, years[y]) in fs
  {
    assert years[..y + 1][..y] == years[..y];
  }

  /** `DirsPresent` holds exactly when every year's directory is in the file system. */
  lemma {:induction false} DirsPresentAll(cat: string, fs: FileSystem, years: seq<int>)
    ensures DirsPresent(cat, fs, years) <==> forall t :: t in years ==> TargetDir(cat, t) in fs
  {
    if |years| > 0 {
      var before := years[..|years| - 1];
      DirsPresentAll(cat, fs, before);
      assert years == before + [years[|years| - 1]];
      assert forall t :: t in years <==> t in before || t == years[|years| - 1];
    }
  }

  /** One more year adds to the entry-by-entry description what `YearAdded` adds. */
  lemma CategoryStep(cat: string, stubs: StubFiles, fs: FileSystem, years: seq<int>, y: nat)
    requires y < |years|
    ensures CategoryListed(cat, stubs, fs, years[..y + 1]) == YearAdded(CategoryListed(cat, stubs, fs, years[..y]), cat, stubs, fs, years[y])
  {
    RefStep(cat, stubs, years[..y], years[y]);
    assert years[..y] + [years[y]] == years[..y + 1];
    TablesStep(cat, stubs, fs, years, y, Dollars);
    TablesStep(cat, stubs, fs, years, y, Measure.Units);
    OccurrencesStep(cat, stubs, fs, years, y);
    PanelsStep(cat, fs, years, y);
  }

  /** A year's reference is the one before it with the year's cohort added. */
  lemma RefStep(cat: string, stubs: StubFiles, before: seq<int>, time: int)
    ensures RefAfter(cat, stubs, before + [time]) == WithCohort(RefAfter(cat, stubs, before), cat, time, stubs)
  {
    assert (before + [time])[..|before|] == before;
  }

  /** One more year appends its finished matrix to the sales (or units) list. */
  lemma TablesStep(cat: string, stubs: StubFiles, fs: FileSystem, years: seq<int>, y: nat, m: Measure)
    requires y < |years|
    ensures YearTables(cat, stubs, fs, years[..y + 1], m) == YearTables(cat, stubs, fs, years[..y], m) + [YearMatrix(cat, stubs, fs, years[..y], years[y], m)]
  {
    PerYearStep(years, y, MatrixOf(cat, stubs, fs, m));
  }

  /** One more year appends its outlets' frames to the occurrence list. */
  lemma OccurrencesStep(cat: string, stubs: StubFiles, fs: FileSystem, years: seq<int>, y: nat)
    requires y < |years|
    ensures YearOccurrences(cat, stubs, fs, years[..y + 1]) == YearOccurrences(cat, stubs, fs, years[..y]) + YearOccsAfter(cat, stubs, fs, years[..y], years[y])
  {
    PerYearStep(years, y, OccsOf(cat, stubs, fs));
    FlattenStep(PerYear(years[..y], OccsOf(cat, stubs, fs)), YearOccsAfter(cat, stubs, fs, years[..y], years[y]));
  }

  /** One more year appends three copies of its directory's data to the panel list. */
  lemma PanelsStep(cat: string, fs: FileSystem, years: seq<int>, y: nat)
    requires y < |years|
    ensures YearPanels(cat, fs, years[..y + 1]) == YearPanels(cat, fs, years[..y]) + Thrice(DirPanel(fs, TargetDir(cat, years[y])))
  {
    PerYearStep(years, y, PanelsOf(cat, fs));
    FlattenStep(PerYear(years[..y], PanelsOf(cat, fs)), Thrice(DirPanel(fs, TargetDir(cat, years[y]))));
  }

  /** The loop's lists are the ones described entry by entry. */
  lemma {:induction false} CategoryAfterListed(cat: string, stubs: StubFiles, fs: FileSystem, years: seq<int>)
    ensures CategoryAfter(cat, stubs, fs, years) == CategoryListed(cat, stubs, fs, years)
  {
    if |years| > 0 {
      var n := |years| - 1;
      CategoryAfterListed(cat, stubs, fs, years[..n]);
      CategoryStep(cat, stubs, fs, years, n);
      assert years[..n + 1] == years;
    }
  }

  /**
   * The lists after the given years, entry by entry: entry `k` of the sales and units
   * lists is year `k`'s finished matrix, entry `k` of the occurrence list is the frame of
   * year `k / 3`'s outlet `k % 3`, and entry `k` of the panel list is the data of year
   * `k / 3`'s directory, so every year's panel data appears three times in a row.
   */
  lemma CategoryEntries(cat: string, stubs: StubFiles, fs: FileSystem, years: seq<int>, k: nat)
    ensures var l := CategoryAfter(cat, stubs, fs, years);
      |l.sales| == |l.units| == |years| && |l.occs| == |l.panels| == |Outlets| * |years|
    ensures var l := CategoryAfter(cat, stubs, fs, years);
      k < |years| ==>
        l.sales[k] == YearMatrix(cat, stubs, fs, years[..k], years[k], Dollars) &&
        l.units[k] == YearMatrix(cat, stubs, fs, years[..k], years[k], Measure.Units)
    ensures var l := CategoryAfter(cat, stubs, fs, years);
      k < |Outlets| * |years| ==>
        l.occs[k] == YearOccsAfter(cat, stubs, fs, years[..k / 3], years[k / 3])[k % 3] &&
        l.panels[k] == DirPanel(fs, TargetDir(cat, years[k / 3]))
  {
    CategoryAfterListed(cat, stubs, fs, years);
    YearOccurrencesAt(cat, stubs, fs, years, k);
    YearPanelsAt(cat, fs, years, k);
  }

  /** One year of the category loop: start the year, its three outlets, then the year's snapshots. */
  method RunYear(reader: DataReader, cat: string, time: int, stubs: StubFiles, fs: FileSystem, progress: int) returns (o: Outcome<Error>, progress': int)
    requires reader.Valid()
    modifies reader, reader.salesData, reader.unitsData
    ensures reader.Valid()
    ensures o.Pass? ==> fresh(reader.salesData) && fresh(reader.unitsData)
    ensures o.Pass? ==> progress' == progress + |Outlets|
    ensures o.Pass? ==> Lists(reader) == YearAdded(old(Lists(reader)), cat, stubs, fs, time)
    ensures o.Pass? ==> TargetDir(cat, time) in fs
  {
    ghost var before := Lists(reader);
    progress' := progress;
    o := StartYear(reader, cat, time, stubs);
    if o.Pass? {
      o, progress' := ProcessYear(reader, cat, time, fs, progress);
      if o.Pass? {
        YearClosed(before, cat, stubs, fs, time, Progress(reader));
        CloseYear(reader);
      }
    }
  }

  /** The year's outlet loop from zero matrices, snapshotted, is what `YearAdded` adds. */
  lemma YearClosed(l: CategoryLists, cat: string, stubs: StubFiles, fs: FileSystem, time: int, p: YearProgress)
    requires var ref := WithCohort(l.ref, cat, time, stubs); var zero := ZeroTable(ref.Values, YearWeeks(time));
      p == ProgressAfter(YearProgress(zero, zero, l.occs, l.panels), YearLoads(fs, cat, time, ref), DirPanel(fs, TargetDir(cat, time)), |Outlets|)
    ensures CategoryLists(WithCohort(l.ref, cat, time, stubs), l.sales + [p.sales], l.units + [p.units], p.occs, p.panels) ==
      YearAdded(l, cat, stubs, fs, time)
  {
    var ref := WithCohort(l.ref, cat, time, stubs);
    var zero := ZeroTable(ref.Values, YearWeeks(time));
    YearFinished(ref.Values, YearWeeks(time), YearProgress(zero, zero, l.occs, l.panels), YearLoads(fs, cat, time, ref), DirPanel(fs, TargetDir(cat, time)));
  }

  /** From zero matrices, the outlet loop leaves the year's finished matrices. */
  lemma YearFinished(rows: set<Brand>, cols: set<Week>, start: YearProgress, loads: seq<Result<seq<Row>, Error>>, d: seq<Record>)
    requires |loads| == |Outlets|
    requires start.sales == ZeroTable(rows, cols) && start.units == ZeroTable(rows, cols)
    ensures var p := ProgressAfter(start, loads, d, |Outlets|);
      p.sales == YearTable(rows, cols, LoadedRows(loads), Dollars) &&
      p.units == YearTable(rows, cols, LoadedRows(loads), Measure.Units) &&
      p.occs == start.occs + LoadedOccs(loads) && p.panels == start.panels + Thrice(d)
  {
    ProgressAfterAll(start, loads, d);
    AccumulatedFromZero(rows, cols, LoadedRows(loads), Dollars);
    AccumulatedFromZero(rows, cols, LoadedRows(loads), Measure.Units);
  }

  /**
   * The start of a year: `create_reference`, then `create_zeroes`, which leaves fresh
   * matrices of zeroes with a row per brand of the reference and a column per week of
   * the year. A cohort year whose stub workbook is missing raises first.
   */
  method StartYear(reader: DataReader, cat: string, time: int, stubs: StubFiles) returns (o: Outcome<Error>)
    requires reader.Valid()
    modifies reader`ref, reader`targetDir, reader`beg, reader`end, reader`rowLabels, reader`colLabels, reader`salesData, reader`unitsData
    ensures reader.Valid()
    ensures o.Fail? <==> StubPath(cat, time).Some? && StubPath(cat, time).value !in stubs
    ensures o.Fail? ==> o.error == FileNotFound(StubPath(cat, time).value)
    ensures o.Fail? ==> reader.salesData == old(reader.salesData) && reader.unitsData == old(reader.unitsData)
    ensures o.Pass? ==> fresh(reader.salesData) && fresh(reader.unitsData)
    ensures o.Pass? ==> reader.ref == WithCohort(old(reader.ref), cat, time, stubs)
    ensures o.Pass? ==> reader.targetDir == Some(TargetDir(cat, time)) && (reader.beg, reader.end) == WeekRange(time)
    ensures o.Pass? ==> reader.SalesFrame() == ZeroTable(reader.ref.Values, YearWeeks(time))
    ensures o.Pass? ==> reader.UnitsFrame() == ZeroTable(reader.ref.Values, YearWeeks(time))
  {
    o := reader.CreateReference(cat, time, stubs);
    if o.Fail? {
      return;
    }
    reader.CreateZeroes(cat, time);
    ZeroSnapshot(reader.salesData, reader.rowLabels, reader.colLabels);
    ZeroSnapshot(reader.unitsData, reader.rowLabels, reader.colLabels);
  }

  /** The end of a year: the finished sales and units matrices are appended to `sales_list` and `units_list`. */
  method CloseYear(reader: DataReader)
    requires reader.Valid()
    modifies reader`salesList, reader`unitsList
    ensures reader.Valid()
    ensures reader.salesList == old(reader.salesList) + [reader.SalesFrame()]
    ensures reader.unitsList == old(reader.unitsList) + [reader.UnitsFrame()]
  {
    reader.salesList := reader.salesList + [reader.SalesFrame()];
    reader.unitsList := reader.unitsList + [reader.UnitsFrame()];
  }

  /** The outlet loop of one year: the store step for drug, groc and MA in turn, each on the result of reading its file. */
  method ProcessYear(reader: DataReader, cat: string, time: int, fs: FileSystem, progress: int) returns (o: Outcome<Error>, progress': int)
    requires reader.Valid() && reader.targetDir == Some(TargetDir(cat, time)) && (reader.beg, reader.end) == WeekRange(time)
    modifies reader`cat, reader`time, reader`store, reader`data, reader`occList, reader`panelList
    modifies reader.salesData, reader.unitsData
    ensures reader.Valid()
    ensures o.Pass? ==> progress' == progress + |Outlets|
    ensures o.Pass? ==> TargetDir(cat, time) in fs
    ensures o.Pass? ==>
      Progress(reader) == ProgressAfter(old(Progress(reader)), YearLoads(fs, cat, time, reader.ref), DirPanel(fs, TargetDir(cat, time)), |Outlets|)
  {
    ghost var start := Progress(reader);
    ghost var loads, d := YearLoads(fs, cat, time, reader.ref), DirPanel(fs, TargetDir(cat, time));
    o := Pass;
    progress' := progress;
    var s := 0;
    while s < |Outlets|
      invariant 0 <= s <= |Outlets| && o.Pass?
      invariant progress' == progress + s
      invariant s > 0 ==> TargetDir(cat, time) in fs
      invariant OutletsDone(reader, cat, time, start, loads, d, s)
    {
      o := OutletStep(reader, cat, time, fs, start, loads, d, s);
      if o.Fail? {
        return;
      }
      progress' := UpdatePbar(progress');
      s := s + 1;
    }
  }

  /** What the outlet loop has built so far: both matrices and the occurrence and panel lists. */
  datatype YearProgress = YearProgress(sales: Table<real>, units: Table<real>, occs: seq<Table<int>>, panels: seq<seq<Record>>)

  /** The reader's matrices and lists. */
  function Progress(reader: DataReader): YearProgress
    reads reader`salesData, reader`unitsData, reader`rowLabels, reader`colLabels, reader`occList, reader`panelList
    reads reader.salesData, reader.unitsData
    requires reader.Labelled(reader.salesData) && reader.Labelled(reader.unitsData)
  {
    YearProgress(reader.SalesFrame(), reader.UnitsFrame(), reader.occList, reader.panelList)
  }

  /**
   * One outlet's store step on what the loop has built: the file's rows added into both
   * matrices, its occurrence frame collected, and the directory's panel data `d` collected.
   */
  function OutletDone(p: YearProgress, load: Result<seq<Row>, Error>, d: seq<Record>): YearProgress {
    YearProgress(Accumulated(p.sales, RowsOf(load), Dollars), Accumulated(p.units, RowsOf(load), Measure.Units),
                 p.occs + [OccurrenceTable(RowsOf(load))], p.panels + [d])
  }

  /** What the loop has built after the first `s` outlets, from `start`. */
  function ProgressAfter(start: YearProgress, loads: seq<Result<seq<Row>, Error>>, d: seq<Record>, s: nat): YearProgress
    requires s <= |loads|
  {
    if s == 0 then start else OutletDone(ProgressAfter(start, loads, d, s - 1), loads[s - 1], d)
  }

  /** The first `s` outlets add all their rows at once, and collect their frames and `s` copies of `d` in order. */
  lemma {:induction false} ProgressAfterRows(start: YearProgress, loads: seq<Result<seq<Row>, Error>>, d: seq<Record>, s: nat)
    requires s <= |loads|
    ensures ProgressAfter(start, loads, d, s) ==
      YearProgress(Accumulated(start.sales, LoadedRows(loads[..s]), Dollars), Accumulated(start.units, LoadedRows(loads[..s]), Measure.Units),
                   start.occs + LoadedOccs(loads[..s]), start.panels + seq(s, _ => d))
  {
    if s == 0 {
      assert loads[..0] == [];
      AccumulatedNothing(start.sales, Dollars);
      AccumulatedNothing(start.units, Measure.Units);
      assert start.occs + LoadedOccs(loads[..0]) == start.occs;
      assert start.panels + seq(0, _ => d) == start.panels;
    } else {
      ProgressAfterRows(start, loads, d, s - 1);
      LoadedStep(loads, s - 1);
      AccumulatedAppend(start.sales, LoadedRows(loads[..s - 1]), RowsOf(loads[s - 1]), Dollars);
      AccumulatedAppend(start.units, LoadedRows(loads[..s - 1]), RowsOf(loads[s - 1]), Measure.Units);
      assert seq(s - 1, _ => d) + [d] == seq(s, _ => d);
    }
  }

  /** After the three outlets, the loop has added the year's rows and collected its frames and three copies of `d`. */
  lemma ProgressAfterAll(start: YearProgress, loads: seq<Result<seq<Row>, Error>>, d: seq<Record>)
    requires |loads| == |Outlets|
    ensures ProgressAfter(start, loads, d, |Outlets|) ==
      YearProgress(Accumulated(start.sales, LoadedRows(loads), Dollars), Accumulated(start.units, LoadedRows(loads), Measure.Units),
                   start.occs + LoadedOccs(loads), start.panels + Thrice(d))
  {
    ProgressAfterRows(start, loads, d, |Outlets|);
    assert loads[..|Outlets|] == loads;
    assert seq(|Outlets|, _ => d) == Thrice(d);
  }

  /** The reader is set up for year `time` and holds what the loop has built after `s` outlets. */
  ghost predicate OutletsDone(reader: DataReader, cat: string, time: int, start: YearProgress,
                              loads: seq<Result<seq<Row>, Error>>, d: seq<Record>, s: nat)
    reads reader, reader.salesData, reader.unitsData
  {
    reader.Valid() && reader.targetDir == Some(TargetDir(cat, time)) && (reader.beg, reader.end) == WeekRange(time) &&
    s <= |loads| && Progress(reader) == ProgressAfter(start, loads, d, s)
  }

  /** Outlet `s` of the year: its store step, on the result `loads[s]` of reading its file. */
  method OutletStep(reader: DataReader, cat: string, time: int, fs: FileSystem,
                    ghost start: YearProgress, ghost loads: seq<Result<seq<Row>, Error>>, ghost d: seq<Record>, s: nat)
    returns (o: Outcome<Error>)
    requires s < |Outlets| == |loads|
    requires loads[s] == StoreRows(fs, cat, time, Outlets[s], reader.ref) && d == DirPanel(fs, TargetDir(cat, time))
    requires OutletsDone(reader, cat, time, start, loads, d, s)
    modifies reader`cat, reader`time, reader`store, reader`data, reader`occList, reader`panelList
    modifies reader.salesData, reader.unitsData
    ensures reader.Valid()
    ensures o.Pass? <==> StoreSucceeds(loads[s], reader.rowLabels, reader.colLabels, fs, TargetDir(cat, time))
    ensures o.Pass? ==> TargetDir(cat, time) in fs
    ensures o.Pass? ==> OutletsDone(reader, cat, time, start, loads, d, s + 1)
  {
    o := ProcessStore(reader, cat, time, Outlets[s], fs);
  }

  /** One more outlet adds its file's rows to the year's rows and its occurrence frame to the year's frames. */
  lemma LoadedStep(loads: seq<Result<seq<Row>, Error>>, s: nat)
    requires s < |loads|
    ensures LoadedRows(loads[..s + 1]) == LoadedRows(loads[..s]) + RowsOf(loads[s])
    ensures LoadedOccs(loads[..s + 1]) == LoadedOccs(loads[..s]) + [OccurrenceTable(RowsOf(loads[s]))]
  {
    assert loads[..s + 1][..s] == loads[..s];
  }

  /** `store_data` seen from the loop: it succeeds exactly when the store's file of the year yields rows, and leaves them in `data`. */
  method LoadStore(reader: DataReader, cat: string, time: int, store: string, fs: FileSystem) returns (o: Outcome<Error>)
    requires reader.Valid() && reader.targetDir == Some(TargetDir(cat, time)) && (reader.beg, reader.end) == WeekRange(time)
    modifies reader`cat, reader`time, reader`store, reader`data
    ensures reader.Valid()
    ensures o.Pass? <==> StoreRows(fs, cat, time, store, reader.ref).Ok?
    ensures o.Pass? ==> reader.data == Some(StoreRows(fs, cat, time, store, reader.ref).value)
    ensures o.Fail? ==> o.error == StoreRows(fs, cat, time, store, reader.ref).error
  {
    o := reader.StoreData(cat, time, store, fs);
  }

  /**
   * One outlet of one year, the body of `main`'s store loop: read the store's file, then
   * occurrence, sales, units and panels on it. The file's rows are added into both
   * matrices and its occurrence frame is collected.
   */
  method ProcessStore(reader: DataReader, cat: string, time: int, store: string, fs: FileSystem) returns (o: Outcome<Error>)
    requires reader.Valid() && reader.targetDir == Some(TargetDir(cat, time)) && (reader.beg, reader.end) == WeekRange(time)
    modifies reader`cat, reader`time, reader`store, reader`data, reader`occList, reader`panelList
    modifies reader.salesData, reader.unitsData
    ensures reader.Valid()
    ensures StoreRows(fs, cat, time, store, reader.ref).Err? ==> o == Fail(StoreRows(fs, cat, time, store, reader.ref).error)
    ensures o.Pass? <==> StoreSucceeds(StoreRows(fs, cat, time, store, reader.ref), reader.rowLabels, reader.colLabels, fs, TargetDir(cat, time))
    ensures o.Pass? ==> var rows := StoreRows(fs, cat, time, store, reader.ref).value;
      reader.SalesFrame() == Accumulated(old(reader.SalesFrame()), rows, Dollars) &&
      reader.UnitsFrame() == Accumulated(old(reader.UnitsFrame()), rows, Measure.Units) &&
      reader.occList == old(reader.occList) + [OccurrenceTable(rows)]
    ensures o.Pass? ==> TargetDir(cat, time) in fs
    ensures o.Pass? ==> reader.panelList == old(reader.panelList) + [DirPanel(fs, TargetDir(cat, time))]
  {
    o := LoadStore(reader, cat, time, store, fs);
    if o.Fail? {
      return;
    }
    o := IngestStore(reader, fs);
  }

  /** The steps after `store_data`, on the loaded rows: occurrence, sales, units and panels. */
  method IngestStore(reader: DataReader, fs: FileSystem) returns (o: Outcome<Error>)
    requires reader.Valid() && reader.data.Some? && reader.targetDir.Some?
    modifies reader`occList, reader`panelList, reader.salesData, reader.unitsData
    ensures reader.Valid()
    ensures o.Pass? <==> LabelsCover(reader.data.value, reader.rowLabels, reader.colLabels) && PanelsFound(fs, reader.targetDir.value)
    ensures o.Pass? ==> reader.SalesFrame() == Accumulated(old(reader.SalesFrame()), reader.data.value, Dollars)
    ensures o.Pass? ==> reader.UnitsFrame() == Accumulated(old(reader.UnitsFrame()), reader.data.value, Measure.Units)
    ensures o.Pass? ==> reader.occList == old(reader.occList) + [OccurrenceTable(reader.data.value)]
    ensures o.Pass? ==> reader.targetDir.value in fs
    ensures o.Pass? ==> reader.panelList == old(reader.panelList) + [DirPanel(fs, reader.targetDir.value)]
  {
    o := CountOccurrence(reader);
    assert o.Pass?;
    o := Accumulate(reader);
    if o.Fail? {
      return;
    }
    o := GatherPanels(reader, fs);
  }

  /** `sales` then `units`: the loaded rows added into both matrices. */
  method Accumulate(reader: DataReader) returns (o: Outcome<Error>)
    requires reader.Valid() && reader.data.Some?
    modifies reader.salesData, reader.unitsData
    ensures reader.Valid()
    ensures o.Pass? <==> LabelsCover(reader.data.value, reader.rowLabels, reader.colLabels)
    ensures o.Pass? ==> reader.SalesFrame() == Accumulated(old(reader.SalesFrame()), reader.data.value, Dollars)
    ensures o.Pass? ==> reader.UnitsFrame() == Accumulated(old(reader.UnitsFrame()), reader.data.value, Measure.Units)
  {
    o := Sales(reader);
    if o.Fail? {
      return;
    }
    o := HelperFunc.Units(reader);
  }

  /** `panels` on the reader's target directory, stated as the panel data of that directory. */
  method GatherPanels(reader: DataReader, fs: FileSystem) returns (o: Outcome<Error>)
    requires reader.targetDir.Some?
    modifies reader`panelList
    ensures o.Pass? <==> PanelsFound(fs, reader.targetDir.value)
    ensures o.Pass? ==> reader.targetDir.value in fs
    ensures o.Pass? ==> reader.panelList == old(reader.panelList) + [DirPanel(fs, reader.targetDir.value)]
  {
    o := Panels(reader, fs);
  }

  /** `occurrence` on the loaded store file: the file's occurrence frame is collected. */
  method CountOccurrence(reader: DataReader) returns (o: Outcome<Error>)
    modifies reader`occList
    ensures o.Pass? <==> reader.data.Some?
    ensures o.Pass? ==> reader.occList == old(reader.occList) + [OccurrenceTable(reader.data.value)]
  {
    o := Occurrence(reader);
  }

  /**
   * When one outlet's step goes through: its file yields rows, every (brand, week) of them
   * has a cell in the matrices, and the year's directory has panel data to concatenate.
   */
  predicate StoreSucceeds(load: Result<seq<Row>, Error>, rows: seq<Brand>, cols: seq<Week>, fs: FileSystem, dir: string) {
    load.Ok? && LabelsCover(load.value, rows, cols) && PanelsFound(fs, dir)
  }

  /** The rows a store's file yields; the loop stops at a file that yields none. */
  function RowsOf(r: Result<seq<Row>, Error>): seq<Row> {
    if r.Ok? then r.value else []
  }

  /** The results of reading year `time`'s store files, in outlet order, resolved against `ref`. */
  function YearLoads(fs: FileSystem, cat: string, time: int, ref: map<string, Brand>): seq<Result<seq<Row>, Error>> {
    seq(|Outlets|, s requires 0 <= s < |Outlets| => StoreRows(fs, cat, time, Outlets[s], ref))
  }

  /** The rows of the given read results, one after the other. */
  function LoadedRows(loads: seq<Result<seq<Row>, Error>>): seq<Row> {
    if loads == [] then []
    else LoadedRows(loads[..|loads| - 1]) + RowsOf(loads[|loads| - 1])
  }

  /** The occurrence frame of each read result. */
  function LoadedOccs(loads: seq<Result<seq<Row>, Error>>): seq<Table<int>> {
    seq(|loads|, s requires 0 <= s < |loads| => OccurrenceTable(RowsOf(loads[s])))
  }

  /** The rows of year `time`'s three store files, drug, groc then MA. */
  function YearRows(fs: FileSystem, cat: string, time: int, ref: map<string, Brand>): seq<Row> {
    LoadedRows(YearLoads(fs, cat, time, ref))
  }

  /** The occurrence frames of year `time`'s outlet files, in outlet order. */
  function YearOccs(fs: FileSystem, cat: string, time: int, ref: map<string, Brand>): seq<Table<int>> {
    LoadedOccs(YearLoads(fs, cat, time, ref))
  }

  /** The reference after the given years, starting from an empty one. */
  function RefAfter(cat: string, stubs: StubFiles, years: seq<int>): map<string, Brand> {
    if years == [] then map[]
    else WithCohort(RefAfter(cat, stubs, years[..|years| - 1]), cat, years[|years| - 1], stubs)
  }

  /** One entry per year: entry `k` is `f` of the years before year `k` and of year `k` itself. */
  function PerYear<T>(years: seq<int>, f: (seq<int>, int) -> T): (r: seq<T>)
    ensures |r| == |years| && forall k :: 0 <= k < |years| ==> r[k] == f(years[..k], years[k])
  {
    seq(|years|, k requires 0 <= k < |years| => f(years[..k], years[k]))
  }

  /** One more year adds one more entry and leaves the earlier ones alone. */
  lemma PerYearStep<T>(years: seq<int>, y: nat, f: (seq<int>, int) -> T)
    requires y < |years|
    ensures PerYear(years[..y + 1], f) == PerYear(years[..y], f) + [f(years[..y], years[y])]
  {
    var longer, shorter := PerYear(years[..y + 1], f), PerYear(years[..y], f);
    forall k | 0 <= k < y ensures longer[k] == shorter[k] {
      assert years[..y + 1][..k] == years[..y][..k];
    }
    assert years[..y + 1][..y] == years[..y];
    assert longer == shorter + [f(years[..y], years[y])];
  }

  /** With three entries a year, entry `k` of the flattened list is entry `k % 3` of year `k / 3`'s. */
  lemma PerYearThrees<T>(years: seq<int>, f: (seq<int>, int) -> seq<T>, k: nat)
    requires forall y :: 0 <= y < |years| ==> |f(years[..y], years[y])| == 3
    ensures |Flatten(PerYear(years, f))| == 3 * |years|
    ensures k < 3 * |years| ==> k / 3 < |years| && Flatten(PerYear(years, f))[k] == f(years[..k / 3], years[k / 3])[k % 3]
  {
    FlattenThrees(PerYear(years, f), k);
  }

  /**
   * The finished sales (or units) matrix of year `time` after the years `before`: a row
   * per brand of the reference built up to that year, a column per week of the year, and
   * the year's three store files added up in its cells.
   */
  function YearMatrix(cat: string, stubs: StubFiles, fs: FileSystem, before: seq<int>, time: int, m: Measure): Table<real> {
    var ref := RefAfter(cat, stubs, before + [time]);
    YearTable(ref.Values, YearWeeks(time), YearRows(fs, cat, time, ref), m)
  }

  function MatrixOf(cat: string, stubs: StubFiles, fs: FileSystem, m: Measure): (seq<int>, int) -> Table<real> {
    (before, time) => YearMatrix(cat, stubs, fs, before, time, m)
  }

  /** The sales (or units) list after the given years: each year's finished matrix, year after year. */
  function YearTables(cat: string, stubs: StubFiles, fs: FileSystem, years: seq<int>, m: Measure): seq<Table<real>> {
    PerYear(years, MatrixOf(cat, stubs, fs, m))
  }

  /** The occurrence frames of year `time` after the years `before`, on the reference built up to that year. */
  function YearOccsAfter(cat: string, stubs: StubFiles, fs: FileSystem, before: seq<int>, time: int): seq<Table<int>> {
    YearOccs(fs, cat, time, RefAfter(cat, stubs, before + [time]))
  }

  function OccsOf(cat: string, stubs: StubFiles, fs: FileSystem): (seq<int>, int) -> seq<Table<int>> {
    (before, time) => YearOccsAfter(cat, stubs, fs, before, time)
  }

  /** The occurrence list after the given years: each year's outlet frames, year after year. */
  function YearOccurrences(cat: string, stubs: StubFiles, fs: FileSystem, years: seq<int>): seq<Table<int>> {
    Flatten(PerYear(years, OccsOf(cat, stubs, fs)))
  }

  /** Entry `k` of the occurrence list is the frame of year `k / 3`'s outlet `k % 3`. */
  lemma YearOccurrencesAt(cat: string, stubs: StubFiles, fs: FileSystem, years: seq<int>, k: nat)
    ensures |YearOccurrences(cat, stubs, fs, years)| == |Outlets| * |years|
    ensures k < |Outlets| * |years| ==>
      YearOccurrences(cat, stubs, fs, years)[k] == YearOccsAfter(cat, stubs, fs, years[..k / 3], years[k / 3])[k % 3]
  {
    forall before, time ensures |OccsOf(cat, stubs, fs)(before, time)| == 3 {
      assert |YearLoads(fs, cat, time, RefAfter(cat, stubs, before + [time]))| == 3;
    }
    PerYearThrees(years, OccsOf(cat, stubs, fs), k);
  }

  /** The panel data `panels` gathers from a directory; a missing directory raises before anything is gathered. */
  function DirPanel(fs: FileSystem, dir: string): seq<Record> {
    if dir in fs then PanelData(fs[dir]) else []
  }

  /** The three outlets' entries of one year. */
  function Thrice<T>(d: T): (r: seq<T>)
    ensures |r| == |Outlets|
  {
    [d, d, d]
  }

  /** Each of the three copies is the original. */
  lemma ThriceAt<T>(d: T, i: nat)
    requires i < |Outlets|
    ensures Thrice(d)[i] == d
  {
  }

  function PanelsOf(cat: string, fs: FileSystem): (seq<int>, int) -> seq<seq<Record>> {
    (before, time) => Thrice(DirPanel(fs, TargetDir(cat, time)))
  }

  /** The panel list after the given years: each year's directory data three times, year after year. */
  function YearPanels(cat: string, fs: FileSystem, years: seq<int>): seq<seq<Record>> {
    Flatten(PerYear(years, PanelsOf(cat, fs)))
  }

  /** Entry `k` of the panel list is the data of year `k / 3`'s directory. */
  lemma YearPanelsAt(cat: string, fs: FileSystem, years: seq<int>, k: nat)
    ensures |YearPanels(cat, fs, years)| == |Outlets| * |years|
    ensures k < |Outlets| * |years| ==> k / 3 < |years| && YearPanels(cat, fs, years)[k] == DirPanel(fs, TargetDir(cat, years[k / 3]))
  {
    PerYearThrees(years, PanelsOf(cat, fs), k);
    if k < |Outlets| * |years| {
      ThriceAt(DirPanel(fs, TargetDir(cat, years[k / 3])), k % 3);
    }
  }

  /** `categories[start:]`: the categories from position `start` on, none when it is past the end. */
  function Slice(categories: seq<string>, start: nat): (r: seq<string>)
    ensures |r| == if start <= |categories| then |categories| - start else 0
    ensures forall i :: 0 <= i < |r| ==> r[i] == categories[start + i]
  {
    if start <= |categories| then categories[start..] else []
  }

  /** What `final_product` exports for category `cat` when every year of it goes through. */
  function CategoryProduct(cat: string, stubs: StubFiles, fs: FileSystem): Product {
    var l := CategoryAfter(cat, stubs, fs, Years);
    var sales := CombineSum(l.sales);
    Product(CombineMax(l.occs), sales, UnitPrice(sales, CombineSum(l.units)), ConcatRows(l.panels))
  }

  /** `main`'s export step as a function of the category. */
  function ProductOf(stubs: StubFiles, fs: FileSystem): string -> Product {
    cat => CategoryProduct(cat, stubs, fs)
  }

  /** `f` applied to each of `xs`, in order. */
  function Mapped<A, B>(xs: seq<A>, f: A -> B): (r: seq<B>)
    ensures |r| == |xs|
  {
    if |xs| == 0 then [] else Mapped(xs[..|xs| - 1], f) + [f(xs[|xs| - 1])]
  }

  /** Entry `d` of `Mapped(xs, f)` is `f(xs[d])`. */
  lemma {:induction false} MappedAt<A, B>(xs: seq<A>, f: A -> B)
    ensures forall d :: 0 <= d < |xs| ==> Mapped(xs, f)[d] == f(xs[d])
  {
    if |xs| > 0 {
      var before := xs[..|xs| - 1];
      MappedAt(before, f);
      forall d | 0 <= d < |xs| - 1
        ensures Mapped(xs, f)[d] == f(xs[d])
      {
        assert Mapped(xs, f)[d] == Mapped(before, f)[d];
        assert before[d] == xs[d];
      }
    }
  }

  /** One more element appends its image. */
  lemma MappedStep<A, B>(xs: seq<A>, c: nat, f: A -> B)
    requires c < |xs|
    ensures Mapped(xs[..c + 1], f) == Mapped(xs[..c], f) + [f(xs[c])]
  {
    assert xs[..c + 1][..c] == xs[..c];
  }

  /**
   * One category of `main`'s loop: the year loop on a fresh reader, then `final_product`,
   * which goes through because every list holds an entry per year.
   */
  method CategoryRun(cat: string, stubs: StubFiles, fs: FileSystem, progress: int)
    returns (r: Result<Product, Error>, progress': int)
    ensures r.Ok? ==> progress' == progress + |Years| * |Outlets| && r.value == CategoryProduct(cat, stubs, fs)
  {
    var o, reader;
    o, reader, progress' := ProcessCategory(cat, stubs, fs, progress);
    if o.Fail? {
      return Err(o.error), progress';
    }
    r := FinalProduct(reader);
    assert r.Ok?;
  }

  /**
   * `main(start)`: every category from `start` on, in order; SUCCESS_CODE once all are
   * done, with the progress count at `file_count`, one file per category, year and outlet,
   * and each category's product computed from its eleven years of files.
   */
  method Run(categories: seq<string>, start: nat, stubs: StubFiles, fs: FileSystem)
    returns (r: Result<int, Error>, progress: int, products: seq<Product>)
    ensures r.Ok? ==> r.value == SuccessCode
    ensures r.Ok? ==> progress == |Slice(categories, start)| * |Years| * |Outlets|
    ensures r.Ok? ==> products == Mapped(Slice(categories, start), ProductOf(stubs, fs))
  {
    var cats := Slice(categories, start);
    var perCategory := |Years| * |Outlets|;
    progress := InitialProgress;
    products := [];
    var c := 0;
    while c < |cats|
      invariant 0 <= c <= |cats|
      invariant progress == c * perCategory
      invariant products == Mapped(cats[..c], ProductOf(stubs, fs))
    {
      var product, p := CategoryRun(cats[c], stubs, fs, progress);
      if product.Err? {
        return Err(product.error), p, products;
      }
      MappedStep(cats, c, ProductOf(stubs, fs));
      products := products + [product.value];
      progress := p;
      c := c + 1;
    }
    assert cats[..c] == cats;
    r := Ok(SuccessCode);
  }
}
