/**
 * The per-store steps run for every file: the occurrence indicator, the in-place
 * accumulation of grouped sums into the year's matrices, and the gathering of the
 * directory's panel files.
 */
module HelperFunc {
  import opened Wrappers
  import opened Collections
  import opened Text
  import opened Records
  import opened Tables
  import opened DataReaders

  /** `occurrence(inst)`: appends the file's brand-by-week 0/1 occurrence frame to `occ_list`. */
  method Occurrence(inst: DataReader) returns (o: Outcome<Error>)
    modifies inst`occList
    ensures inst.data.None? ==> o == Fail(AttributeError("data")) && inst.occList == old(inst.occList)
    ensures inst.data.Some? ==> o.Pass? && inst.occList == old(inst.occList) + [OccurrenceTable(inst.data.value)]
    ensures inst.data.Some? ==>
      var t := OccurrenceTable(inst.data.value);
      t.rows == BrandsOf(inst.data.value) && t.cols == WeeksOf(inst.data.value) && Dense(t) &&
      forall b, w :: (b, w) in t.cell ==> t.cell[(b, w)] == (if Present(inst.data.value, b, w) then 1 else 0)
  {
    if inst.data.None? {
      return Fail(AttributeError("data"));
    }
    OccurrenceCells(inst.data.value);
    inst.occList := inst.occList + [OccurrenceTable(inst.data.value)];
    return Pass;
  }

  /** Every grouped pair comes from a row of the file, and every row's pair is grouped. */
  lemma KeysOfRows(data: seq<Row>)
    ensures forall r :: r in data ==> (r.brand, r.week) in KeysOf(data)
    ensures forall k :: k in KeysOf(data) ==> exists r :: r in data && r.brand == k.0 && r.week == k.1
  {
  }

  /**
   * `[labels.get_loc(x) for x in xs]`: the position of every label in turn, or the first
   * label the index lacks.
   */
  method Locate<T(==)>(labels: seq<T>, xs: seq<T>) returns (r: Result<seq<nat>, T>)
    ensures r.Ok? <==> forall x :: x in xs ==> x in labels
    ensures r.Ok? ==> |r.value| == |xs| && forall s :: 0 <= s < |xs| ==> r.value[s] < |labels| && labels[r.value[s]] == xs[s]
    ensures r.Err? ==> r.error in xs && r.error !in labels
  {
    var found: seq<nat> := [];
    var t := 0;
    while t < |xs|
      invariant 0 <= t <= |xs| && |found| == t
      invariant forall s :: 0 <= s < t ==> found[s] < |labels| && labels[found[s]] == xs[s]
    {
      match IndexOf(labels, xs[t]) {
        case None =>
          return Err(xs[t]);
        case Some(i) =>
          found := found + [i];
      }
      t := t + 1;
    }
    return Ok(found);
  }

  /**
   * The fancy-indexed `+=`: adds `sums[keys[t]]` to the cell at `(ri[t], ci[t])` for every
   * `t`. The pairs are distinct, so each addressed cell gets exactly its own total.
   */
  method AddAt(a: array2<real>, rows: seq<Brand>, cols: seq<Week>, keys: seq<Key>, ri: seq<nat>, ci: seq<nat>, sums: map<Key, real>)
    requires a.Length0 == |rows| && a.Length1 == |cols| && Distinct(rows) && Distinct(cols) && Distinct(keys)
    requires |ri| == |keys| == |ci| && forall k :: k in keys ==> k in sums
    requires forall s :: 0 <= s < |keys| ==> ri[s] < |rows| && rows[ri[s]] == keys[s].0 && ci[s] < |cols| && cols[ci[s]] == keys[s].1
    modifies a
    ensures forall i, j :: 0 <= i < |rows| && 0 <= j < |cols| ==>
      a[i, j] == old(a[i, j]) + (if (rows[i], cols[j]) in keys then sums[(rows[i], cols[j])] else 0.0)
  {
    var t := 0;
    while t < |keys|
      invariant 0 <= t <= |keys|
      invariant forall i, j :: 0 <= i < |rows| && 0 <= j < |cols| ==>
        a[i, j] == old(a[i, j]) + (if (rows[i], cols[j]) in keys[..t] then sums[(rows[i], cols[j])] else 0.0)
    {
      assert keys[..t + 1] == keys[..t] + [keys[t]];
      assert keys[t] !in keys[..t];
      a[ri[t], ci[t]] := a[ri[t], ci[t]] + sums[keys[t]];
      t := t + 1;
    }
    assert keys[..t] == keys;
  }

  /**
   * The two `get_loc` passes over the grouped pairs: the row of every pair's brand, then
   * the column of every pair's week. The first brand the rows lack, or else the first week
   * the columns lack, raises KeyError.
   */
  method LocateKeys(rows: seq<Brand>, cols: seq<Week>, data: seq<Row>, keys: seq<Key>) returns (r: Result<(seq<nat>, seq<nat>), Error>)
    requires Elems(keys) == KeysOf(data)
    ensures r.Ok? <==> forall x :: x in data ==> x.brand in rows && x.week in cols
    ensures r.Ok? ==> |r.value.0| == |keys| == |r.value.1|
    ensures r.Ok? ==> forall s :: 0 <= s < |keys| ==>
      r.value.0[s] < |rows| && rows[r.value.0[s]] == keys[s].0 && r.value.1[s] < |cols| && cols[r.value.1[s]] == keys[s].1
    ensures r.Err? && (exists x :: x in data && x.brand !in rows) ==>
      exists x :: x in data && x.brand !in rows && r.error == KeyError(x.brand)
    ensures r.Err? && (forall x :: x in data ==> x.brand in rows) ==>
      exists x :: x in data && x.week !in cols && r.error == KeyError(IntToString(x.week))
  {
    var brands := seq(|keys|, s requires 0 <= s < |keys| => keys[s].0);
    var weeks := seq(|keys|, s requires 0 <= s < |keys| => keys[s].1);
    GroupedLabels(data, keys, brands, weeks);
    var ri := Locate(rows, brands);
    if ri.Err? {
      return Err(KeyError(ri.error));
    }
    var ci := Locate(cols, weeks);
    if ci.Err? {
      return Err(KeyError(IntToString(ci.error)));
    }
    return Ok((ri.value, ci.value));
  }

  /** A grouped total is the pair's sum, and a pair with no total sums to nothing. */
  lemma GroupedTotals(data: seq<Row>, m: Measure, keys: seq<Key>)
    requires Elems(keys) == KeysOf(data)
    ensures forall k :: (if k in keys then GroupSum(data, m)[k] else 0.0) == SumAt(data, k, m)
  {
    forall k ensures (if k in keys then GroupSum(data, m)[k] else 0.0) == SumAt(data, k, m) {
      if k !in keys {
        assert k !in Elems(keys);
        SumAtAbsent(data, k, m);
      }
    }
  }

  /** Every row of the file lands on a labelled cell: its brand is a row label and its week a column label. */
  predicate LabelsCover(data: seq<Row>, rows: seq<Brand>, cols: seq<Week>) {
    forall r :: r in data ==> r.brand in rows && r.week in cols
  }

  /**
   * `values[row_indexers, col_indexers] += sums` after a groupby-sum: every (brand, week)
   * pair of the file is looked up in the labels, all brands first and then all weeks, and
   * its total is added to its one cell. The groupby makes the pairs unique, so no cell is
   * addressed twice and no addition is lost. A label the matrix lacks raises KeyError
   * before anything is written.
   */
  method ScatterAdd(a: array2<real>, rows: seq<Brand>, cols: seq<Week>, data: seq<Row>, m: Measure) returns (o: Outcome<Error>)
    requires a.Length0 == |rows| && a.Length1 == |cols| && Distinct(rows) && Distinct(cols)
    modifies a
    ensures o.Pass? <==> forall r :: r in data ==> r.brand in rows && r.week in cols
    ensures o.Pass? ==> forall i, j :: 0 <= i < |rows| && 0 <= j < |cols| ==>
      a[i, j] == old(a[i, j]) + SumAt(data, (rows[i], cols[j]), m)
    ensures o.Pass? ==> forall i, j :: 0 <= i < |rows| && 0 <= j < |cols| && (rows[i], cols[j]) !in KeysOf(data) ==>
      a[i, j] == old(a[i, j])
    ensures o.Pass? ==> Snapshot(a, rows, cols) == Accumulated(old(Snapshot(a, rows, cols)), data, m)
    ensures o.Fail? ==> unchanged(a)
    ensures o.Fail? && (exists r :: r in data && r.brand !in rows) ==>
      exists r :: r in data && r.brand !in rows && o.error == KeyError(r.brand)
    ensures o.Fail? && (forall r :: r in data ==> r.brand in rows) ==>
      exists r :: r in data && r.week !in cols && o.error == KeyError(IntToString(r.week))
  {
    var sums := GroupSum(data, m);
    var keys := Enumerate(sums.Keys);
    var at := LocateKeys(rows, cols, data, keys);
    if at.Err? {
      o := Fail(at.error);
    } else {
      AddAt(a, rows, cols, keys, at.value.0, at.value.1, sums);
      GroupedTotals(data, m, keys);
      forall i, j | 0 <= i < |rows| && 0 <= j < |cols| && (rows[i], cols[j]) !in KeysOf(data)
        ensures a[i, j] == old(a[i, j])
      {
        SumAtAbsent(data, (rows[i], cols[j]), m);
      }
      AccumulatedSnapshot(a, rows, cols, data, m, old(Snapshot(a, rows, cols)));
      o := Pass;
    }
  }

  /** A matrix each of whose cells grew by its pair's total is, as a frame, the earlier frame with the rows added. */
  lemma AccumulatedSnapshot(a: array2<real>, rows: seq<Brand>, cols: seq<Week>, data: seq<Row>, m: Measure, before: Table<real>)
    requires a.Length0 == |rows| && a.Length1 == |cols| && Distinct(rows) && Distinct(cols)
    requires before.rows == Elems(rows) && before.cols == Elems(cols) && Dense(before)
    requires forall i, j :: 0 <= i < |rows| && 0 <= j < |cols| ==>
      (rows[i], cols[j]) in before.cell && a[i, j] == before.cell[(rows[i], cols[j])] + SumAt(data, (rows[i], cols[j]), m)
    ensures Snapshot(a, rows, cols) == Accumulated(before, data, m)
  {
    var after := Snapshot(a, rows, cols);
    var expected := Accumulated(before, data, m);
    assert after.cell.Keys == before.cell.Keys by {
      assert after.rows == before.rows && after.cols == before.cols;
    }
    forall k | k in after.cell
      ensures after.cell[k] == expected.cell[k]
    {
      var i, j := IndexOf(rows, k.0).value, IndexOf(cols, k.1).value;
      assert after.cell[(rows[i], cols[j])] == a[i, j];
    }
  }

  /** The grouped pairs' brands are the file's brands, and their weeks the file's weeks. */
  lemma GroupedLabels(data: seq<Row>, keys: seq<Key>, brands: seq<Brand>, weeks: seq<Week>)
    requires Elems(keys) == KeysOf(data)
    requires |brands| == |keys| == |weeks| && forall s :: 0 <= s < |keys| ==> brands[s] == keys[s].0 && weeks[s] == keys[s].1
    ensures forall k :: k in keys <==> k in KeysOf(data)
    ensures forall b :: b in brands <==> exists r :: r in data && r.brand == b
    ensures forall w :: w in weeks <==> exists r :: r in data && r.week == w
  {
    KeysOfRows(data);
    assert forall k :: k in keys <==> k in Elems(keys);
    forall b ensures b in brands <==> exists r :: r in data && r.brand == b {
      if b in brands {
        var s :| 0 <= s < |brands| && brands[s] == b;
        assert keys[s] in KeysOf(data);
      }
      if r :| r in data && r.brand == b {
        var s :| 0 <= s < |keys| && keys[s] == (r.brand, r.week);
        assert brands[s] == b;
      }
    }
    forall w ensures w in weeks <==> exists r :: r in data && r.week == w {
      if w in weeks {
        var s :| 0 <= s < |weeks| && weeks[s] == w;
        assert keys[s] in KeysOf(data);
      }
      if r :| r in data && r.week == w {
        var s :| 0 <= s < |keys| && keys[s] == (r.brand, r.week);
        assert weeks[s] == w;
      }
    }
  }

  /**
   * `sales(inst)`: adds the file's DOLLARS, summed per brand and week, to the sales matrix;
   * the units matrix is left as it is.
   */
  method Sales(inst: DataReader) returns (o: Outcome<Error>)
    requires inst.Valid()
    modifies inst.salesData
    ensures unchanged(inst.unitsData)
    ensures inst.data.None? ==> o == Fail(AttributeError("data"))
    ensures o.Fail? ==> unchanged(inst.salesData)
    ensures inst.data.Some? ==>
      (o.Pass? <==> forall r :: r in inst.data.value ==> r.brand in inst.rowLabels && r.week in inst.colLabels)
    ensures inst.data.Some? && o.Pass? ==> forall i, j :: 0 <= i < |inst.rowLabels| && 0 <= j < |inst.colLabels| ==>
      inst.salesData[i, j] == old(inst.salesData[i, j]) + SumAt(inst.data.value, (inst.rowLabels[i], inst.colLabels[j]), Dollars)
    ensures o.Pass? ==> inst.SalesFrame() == Accumulated(old(inst.SalesFrame()), inst.data.value, Dollars)
    ensures inst.UnitsFrame() == old(inst.UnitsFrame())
  {
    if inst.data.None? {
      return Fail(AttributeError("data"));
    }
    o := ScatterAdd(inst.salesData, inst.rowLabels, inst.colLabels, inst.data.value, Dollars);
  }

  /**
   * `units(inst)`: adds the file's UNITS, summed per brand and week, to the units matrix;
   * the sales matrix is left as it is.
   */
  method Units(inst: DataReader) returns (o: Outcome<Error>)
    requires inst.Valid()
    modifies inst.unitsData
    ensures unchanged(inst.salesData)
    ensures inst.data.None? ==> o == Fail(AttributeError("data"))
    ensures o.Fail? ==> unchanged(inst.unitsData)
    ensures inst.data.Some? ==>
      (o.Pass? <==> forall r :: r in inst.data.value ==> r.brand in inst.rowLabels && r.week in inst.colLabels)
    ensures inst.data.Some? && o.Pass? ==> forall i, j :: 0 <= i < |inst.rowLabels| && 0 <= j < |inst.colLabels| ==>
      inst.unitsData[i, j] == old(inst.unitsData[i, j]) + SumAt(inst.data.value, (inst.rowLabels[i], inst.colLabels[j]), Measure.Units)
    ensures o.Pass? ==> inst.UnitsFrame() == Accumulated(old(inst.UnitsFrame()), inst.data.value, Measure.Units)
    ensures inst.SalesFrame() == old(inst.SalesFrame())
  {
    if inst.data.None? {
      return Fail(AttributeError("data"));
    }
    o := ScatterAdd(inst.unitsData, inst.rowLabels, inst.colLabels, inst.data.value, Measure.Units);
  }

  /**
   * Accumulating two files into a cell gives the same number in either order, and the same
   * as accumulating their rows at once.
   */
  lemma AccumulationOrder(x: real, a: seq<Row>, b: seq<Row>, k: Key, m: Measure)
    ensures (x + SumAt(a, k, m)) + SumAt(b, k, m) == (x + SumAt(b, k, m)) + SumAt(a, k, m)
    ensures (x + SumAt(a, k, m)) + SumAt(b, k, m) == x + SumAt(a + b, k, m)
  {
    SumAtAppend(a, b, k, m);
  }

  /** The entries of a directory whose name contains `_PANEL_`, in listing order. */
  function PanelEntries(entries: seq<Entry>): (r: seq<Entry>)
    ensures forall e :: e in r <==> e in entries && Contains(e.name, "_PANEL_")
    ensures |r| <= |entries|
  {
    if entries == [] then []
    else
      var rest := PanelEntries(entries[..|entries| - 1]);
      var e := entries[|entries| - 1];
      assert forall x :: x in entries <==> x in entries[..|entries| - 1] || x == e by {
        assert entries == entries[..|entries| - 1] + [e];
      }
      if Contains(e.name, "_PANEL_") then rest + [e] else rest
  }

  /** The frames parsed from the listed files in order, leaving out the files with nothing to parse. */
  function PanelParts(files: seq<Entry>): seq<seq<Record>> {
    if files == [] then []
    else match ChooseParse(files[|files| - 1].file)
      case EmptyData => PanelParts(files[..|files| - 1])
      case Rows(rs) => PanelParts(files[..|files| - 1]) + [rs]
  }

  /** The panel data of a directory: its panel files' rows, concatenated. */
  function PanelData(entries: seq<Entry>): seq<Record> {
    ConcatRows(PanelParts(PanelEntries(entries)))
  }

  /** Every part was parsed from one of the files. */
  lemma {:induction false} PanelPartsSource(files: seq<Entry>)
    ensures forall p :: p in PanelParts(files) ==> exists e :: e in files && ChooseParse(e.file) == Rows(p)
  {
    if files != [] {
      var n := |files| - 1;
      PanelPartsSource(files[..n]);
      assert forall e :: e in files[..n] ==> e in files;
    }
  }

  /** Every file with something to parse contributes its frame. */
  lemma {:induction false} PanelPartsComplete(files: seq<Entry>)
    ensures forall e :: e in files && ChooseParse(e.file).Rows? ==> ChooseParse(e.file).records in PanelParts(files)
  {
    if files != [] {
      var n := |files| - 1;
      PanelPartsComplete(files[..n]);
      assert files == files[..n] + [files[n]];
    }
  }

  /** No part is gathered exactly when every file has nothing to parse. */
  lemma {:induction false} PanelPartsEmpty(files: seq<Entry>)
    ensures PanelParts(files) == [] <==> forall e :: e in files ==> ChooseParse(e.file) == EmptyData
  {
    if files != [] {
      var n := |files| - 1;
      PanelPartsEmpty(files[..n]);
      assert files == files[..n] + [files[n]];
    }
  }

  /** Every row of a directory's panel data comes from a non-empty file whose name contains `_PANEL_`. */
  lemma PanelDataSource(entries: seq<Entry>)
    ensures forall x :: x in PanelData(entries) ==>
      exists e :: e in entries && Contains(e.name, "_PANEL_") && ChooseParse(e.file).Rows? && x in ChooseParse(e.file).records
  {
    var parts := PanelParts(PanelEntries(entries));
    ConcatRowsMembers(parts);
    PanelPartsSource(PanelEntries(entries));
    forall x | x in PanelData(entries)
      ensures exists e :: e in entries && Contains(e.name, "_PANEL_") && ChooseParse(e.file).Rows? && x in ChooseParse(e.file).records
    {
      var i :| 0 <= i < |parts| && x in parts[i];
      assert parts[i] in parts;
      var e :| e in PanelEntries(entries) && ChooseParse(e.file) == Rows(parts[i]);
    }
  }

  /** Every row of every non-empty file whose name contains `_PANEL_` is in the directory's panel data. */
  lemma PanelDataComplete(entries: seq<Entry>)
    ensures forall e, x :: e in entries && Contains(e.name, "_PANEL_") && ChooseParse(e.file).Rows? && x in ChooseParse(e.file).records ==>
      x in PanelData(entries)
  {
    var files := PanelEntries(entries);
    var parts := PanelParts(files);
    ConcatRowsMembers(parts);
    PanelPartsComplete(files);
    forall e, x | e in entries && Contains(e.name, "_PANEL_") && ChooseParse(e.file).Rows? && x in ChooseParse(e.file).records
      ensures x in PanelData(entries)
    {
      var i :| 0 <= i < |parts| && parts[i] == ChooseParse(e.file).records;
    }
  }

  /** The directory exists and at least one of its `_PANEL_` files has something to parse. */
  predicate PanelsFound(fs: FileSystem, dir: string) {
    dir in fs && exists e :: e in fs[dir] && Contains(e.name, "_PANEL_") && ChooseParse(e.file).Rows?
  }

  /**
   * `panels(inst)`: reads every file of the year's directory whose name contains
   * `_PANEL_`, skips those with nothing to parse, and appends the concatenation of the
   * rest to `panel_list`; with no rest, concatenating raises.
   */
  method Panels(inst: DataReader, fs: FileSystem) returns (o: Outcome<Error>)
    modifies inst`panelList
    ensures inst.targetDir.None? ==> o == Fail(AttributeError("target_dir"))
    ensures inst.targetDir.Some? && inst.targetDir.value !in fs ==> o == Fail(FileNotFound(inst.targetDir.value))
    ensures o.Fail? ==> inst.panelList == old(inst.panelList)
    ensures inst.targetDir.Some? && inst.targetDir.value in fs ==>
      var entries := fs[inst.targetDir.value];
      (o.Pass? <==> exists e :: e in entries && Contains(e.name, "_PANEL_") && ChooseParse(e.file).Rows?) &&
      (o.Pass? ==> inst.panelList == old(inst.panelList) + [PanelData(entries)]) &&
      (o.Fail? ==> o.error == NoObjectsToConcatenate)
  {
    if inst.targetDir.None? {
      return Fail(AttributeError("target_dir"));
    }
    var dir := inst.targetDir.value;
    if dir !in fs {
      return Fail(FileNotFound(dir));
    }
    var files := PanelEntries(fs[dir]);
    var parts: seq<seq<Record>> := [];
    var t := 0;
    while t < |files|
      invariant 0 <= t <= |files|
      invariant parts == PanelParts(files[..t])
    {
      assert files[..t + 1][..t] == files[..t];
      match ChooseParse(files[t].file) {
        case EmptyData =>
        case Rows(rs) =>
          parts := parts + [rs];
      }
      t := t + 1;
    }
    assert files[..t] == files;
    PanelPartsEmpty(files);
    if parts == [] {
      return Fail(NoObjectsToConcatenate);
    }
    inst.panelList := inst.panelList + [ConcatRows(parts)];
    return Pass;
  }
}
