/**
 * Brand-by-week frames and the pandas reductions the aggregation applies to them:
 * the per-file occurrence indicator, the per-file grouped sums, and the per-category
 * max, sum and division of the final products.
 */
module Tables {
  import opened Wrappers
  import opened Collections
  import opened Records

  type Key = (Brand, Week)

  /**
   * A frame indexed by brand with one column per week: its row labels, its column labels
   * and the cells that hold a number. A cell at a row and column that is not in `cell` is
   * NaN.
   */
  datatype Table<V> = Table(rows: set<Brand>, cols: set<Week>, cell: map<Key, V>)

  function Grid(rows: set<Brand>, cols: set<Week>): set<Key> {
    set b, w | b in rows && w in cols :: (b, w)
  }

  lemma InGrid(b: Brand, w: Week, rows: set<Brand>, cols: set<Week>)
    requires b in rows && w in cols
    ensures (b, w) in Grid(rows, cols)
  {
  }

  lemma GridMembers(rows: set<Brand>, cols: set<Week>)
    ensures forall k :: k in Grid(rows, cols) <==> k.0 in rows && k.1 in cols
  {
    forall k: Key | k.0 in rows && k.1 in cols ensures k in Grid(rows, cols) {
      InGrid(k.0, k.1, rows, cols);
    }
  }

  /** No cell lies outside the frame's rows and columns. */
  ghost predicate Framed<V>(t: Table<V>) {
    forall k :: k in t.cell ==> k.0 in t.rows && k.1 in t.cols
  }

  /** Every cell of the frame holds a number. */
  ghost predicate Dense<V>(t: Table<V>) {
    forall k :: k in t.cell <==> k.0 in t.rows && k.1 in t.cols
  }

  function Max(a: int, b: int): int {
    if a >= b then a else b
  }

  /** Stacking two frames and keeping, per cell, the larger of the numbers present. */
  function MaxMerge(a: Table<int>, b: Table<int>): Table<int> {
    Table(a.rows + b.rows, a.cols + b.cols,
      map k | k in a.cell.Keys + b.cell.Keys ::
        if k in a.cell && k in b.cell then Max(a.cell[k], b.cell[k])
        else if k in a.cell then a.cell[k] else b.cell[k])
  }

  /** A merged cell is present iff either frame has it, is at least each frame's number there, and is one of them. */
  lemma MaxMergeAt(a: Table<int>, b: Table<int>, k: Key)
    ensures k in MaxMerge(a, b).cell <==> k in a.cell || k in b.cell
    ensures k in a.cell ==> a.cell[k] <= MaxMerge(a, b).cell[k]
    ensures k in b.cell ==> b.cell[k] <= MaxMerge(a, b).cell[k]
    ensures k in MaxMerge(a, b).cell ==>
      (k in a.cell && MaxMerge(a, b).cell[k] == a.cell[k]) || (k in b.cell && MaxMerge(a, b).cell[k] == b.cell[k])
  {
  }

  /**
   * `pd.concat(ts).groupby(level=0).max()`: rows and columns are the union of the frames',
   * a cell is the largest number any frame has there (NaN is skipped), and a cell no frame
   * has stays NaN.
   */
  function CombineMax(ts: seq<Table<int>>): Table<int> {
    if ts == [] then Table({}, {}, map[]) else MaxMerge(CombineMax(ts[..|ts| - 1]), ts[|ts| - 1])
  }

  /** The combined cell is present iff some frame has it, bounds every frame's number, and is one of them. */
  lemma {:induction false} CombineMaxAt(ts: seq<Table<int>>, k: Key)
    ensures k in CombineMax(ts).cell <==> exists i :: 0 <= i < |ts| && k in ts[i].cell
    ensures forall i :: 0 <= i < |ts| && k in ts[i].cell ==> ts[i].cell[k] <= CombineMax(ts).cell[k]
    ensures k in CombineMax(ts).cell ==>
      exists i :: 0 <= i < |ts| && k in ts[i].cell && ts[i].cell[k] == CombineMax(ts).cell[k]
  {
    if ts != [] {
      var n := |ts| - 1;
      var pre := ts[..n];
      CombineMaxAt(pre, k);
      assert forall i :: 0 <= i < n ==> pre[i] == ts[i];
      var c := CombineMax(ts);
      if k in c.cell {
        if k in CombineMax(pre).cell && (k !in ts[n].cell || CombineMax(pre).cell[k] >= ts[n].cell[k]) {
          var i :| 0 <= i < n && k in pre[i].cell && pre[i].cell[k] == CombineMax(pre).cell[k];
          assert ts[i] == pre[i];
        } else {
          assert k in ts[n].cell && ts[n].cell[k] == c.cell[k];
        }
      }
    }
  }

  /** The combined rows and columns are the union of every frame's. */
  lemma {:induction false} CombineMaxLabels(ts: seq<Table<int>>)
    ensures forall b :: b in CombineMax(ts).rows <==> exists i :: 0 <= i < |ts| && b in ts[i].rows
    ensures forall w :: w in CombineMax(ts).cols <==> exists i :: 0 <= i < |ts| && w in ts[i].cols
  {
    if ts != [] {
      var n := |ts| - 1;
      CombineMaxLabels(ts[..n]);
      assert forall i :: 0 <= i < n ==> ts[..n][i] == ts[i];
    }
  }

  /**
   * The max reduction depends only on which frames were collected: not on their order,
   * and not on how often each was collected.
   */
  lemma CombineMaxBySet(ts: seq<Table<int>>, us: seq<Table<int>>)
    requires forall t :: t in ts <==> t in us
    ensures CombineMax(ts) == CombineMax(us)
  {
    var a, b := CombineMax(ts), CombineMax(us);
    CombineMaxLabels(ts);
    CombineMaxLabels(us);
    assert a.rows == b.rows by {
      forall x ensures x in a.rows <==> x in b.rows {
        if x in a.rows {
          var i :| 0 <= i < |ts| && x in ts[i].rows;
          assert ts[i] in us;
        }
        if x in b.rows {
          var i :| 0 <= i < |us| && x in us[i].rows;
          assert us[i] in ts;
        }
      }
    }
    assert a.cols == b.cols by {
      forall x ensures x in a.cols <==> x in b.cols {
        if x in a.cols {
          var i :| 0 <= i < |ts| && x in ts[i].cols;
          assert ts[i] in us;
        }
        if x in b.cols {
          var i :| 0 <= i < |us| && x in us[i].cols;
          assert us[i] in ts;
        }
      }
    }
    forall k ensures (k in a.cell <==> k in b.cell) && (k in a.cell ==> a.cell[k] == b.cell[k]) {
      CombineMaxAt(ts, k);
      CombineMaxAt(us, k);
      if k in a.cell {
        var i :| 0 <= i < |ts| && k in ts[i].cell && ts[i].cell[k] == a.cell[k];
        assert ts[i] in us;
        var j :| 0 <= j < |us| && us[j] == ts[i];
        assert k in b.cell;
        var j' :| 0 <= j' < |us| && k in us[j'].cell && us[j'].cell[k] == b.cell[k];
        assert us[j'] in ts;
        var i' :| 0 <= i' < |ts| && ts[i'] == us[j'];
        assert a.cell[k] <= b.cell[k] && b.cell[k] <= a.cell[k];
      }
      if k in b.cell {
        var j :| 0 <= j < |us| && k in us[j].cell;
        assert us[j] in ts;
        var i :| 0 <= i < |ts| && ts[i] == us[j];
      }
    }
    assert a.cell == b.cell;
  }

  /** Reordering the collected frames leaves the max reduction unchanged. */
  lemma CombineMaxPermutation(ts: seq<Table<int>>, us: seq<Table<int>>)
    requires multiset(ts) == multiset(us)
    ensures CombineMax(ts) == CombineMax(us)
  {
    forall t ensures t in ts <==> t in us {
      assert t in ts <==> t in multiset(ts);
      assert t in us <==> t in multiset(us);
    }
    CombineMaxBySet(ts, us);
  }

  /** Collecting a frame a second time leaves the max reduction unchanged. */
  lemma CombineMaxRepeat(ts: seq<Table<int>>, t: Table<int>)
    requires t in ts
    ensures CombineMax(ts + [t]) == CombineMax(ts)
  {
    CombineMaxBySet(ts + [t], ts);
  }

  function BrandsOf(data: seq<Row>): set<Brand> {
    set r | r in data :: r.brand
  }

  function WeeksOf(data: seq<Row>): set<Week> {
    set r | r in data :: r.week
  }

  /** Some row of the file is of brand `b` in week `w`. */
  predicate Present(data: seq<Row>, b: Brand, w: Week) {
    exists r :: r in data && r.brand == b && r.week == w
  }

  /**
   * Row `i` of `pd.get_dummies(data.set_index(BRAND)[WEEK])`: indexed by the row's brand,
   * one column per week of the file, 1 under the row's own week and 0 elsewhere.
   */
  function DummyRow(data: seq<Row>, i: nat): Table<int>
    requires i < |data|
  {
    var cols := WeeksOf(data);
    Table({data[i].brand}, cols,
      map w | w in cols :: (data[i].brand, w) := if w == data[i].week then 1 else 0)
  }

  /** A dummy row is one-hot: dense over its brand and the file's weeks, 1 under its own week and 0 elsewhere. */
  lemma DummyRowOneHot(data: seq<Row>, i: nat)
    requires i < |data|
    ensures var r := DummyRow(data, i);
      r.rows == {data[i].brand} && r.cols == WeeksOf(data) && Dense(r) &&
      (data[i].brand, data[i].week) in r.cell && r.cell[(data[i].brand, data[i].week)] == 1 &&
      forall k :: k in r.cell && k.1 != data[i].week ==> r.cell[k] == 0
  {
  }

  function Dummies(data: seq<Row>): seq<Table<int>> {
    seq(|data|, i requires 0 <= i < |data| => DummyRow(data, i))
  }

  /** `pd.get_dummies(...).groupby(level=0).max()`: the dummy rows of each brand merged by max. */
  function OccurrenceTable(data: seq<Row>): Table<int> {
    CombineMax(Dummies(data))
  }

  lemma DummyLabels(data: seq<Row>, i: nat)
    requires i < |data|
    ensures Dummies(data)[i].rows == {data[i].brand} && Dummies(data)[i].cols == WeeksOf(data)
  {
    assert Dummies(data)[i] == DummyRow(data, i);
  }

  /** The occurrence frame has one row per brand and one column per week of the file. */
  lemma OccurrenceLabels(data: seq<Row>)
    ensures OccurrenceTable(data).rows == BrandsOf(data)
    ensures OccurrenceTable(data).cols == WeeksOf(data)
  {
    var ds := Dummies(data);
    var t := OccurrenceTable(data);
    CombineMaxLabels(ds);
    forall b ensures b in t.rows <==> b in BrandsOf(data) {
      if b in BrandsOf(data) {
        var r :| r in data && r.brand == b;
        var i :| 0 <= i < |data| && data[i] == r;
        DummyLabels(data, i);
      }
      if b in t.rows {
        var i :| 0 <= i < |ds| && b in ds[i].rows;
        DummyLabels(data, i);
        assert data[i] in data;
      }
    }
    forall w ensures w in t.cols <==> w in WeeksOf(data) {
      if w in WeeksOf(data) {
        assert |data| > 0;
        DummyLabels(data, 0);
      }
      if w in t.cols {
        var i :| 0 <= i < |ds| && w in ds[i].cols;
        DummyLabels(data, i);
      }
    }
  }

  /** A dummy row's cell: present on the row's brand and every week of the file, 1 under the row's week. */
  lemma DummyCell(data: seq<Row>, i: nat, k: Key)
    requires i < |data|
    ensures k in Dummies(data)[i].cell <==> k.0 == data[i].brand && k.1 in WeeksOf(data)
    ensures k in Dummies(data)[i].cell ==> Dummies(data)[i].cell[k] == (if k.1 == data[i].week then 1 else 0)
  {
    assert Dummies(data)[i] == DummyRow(data, i);
  }

  /** An occurrence cell is present iff its brand and its week occur in the file. */
  lemma OccurrenceCellPresent(data: seq<Row>, k: Key)
    ensures k in OccurrenceTable(data).cell <==> k.0 in BrandsOf(data) && k.1 in WeeksOf(data)
  {
    var ds := Dummies(data);
    CombineMaxAt(ds, k);
    if k.0 in BrandsOf(data) && k.1 in WeeksOf(data) {
      var r :| r in data && r.brand == k.0;
      var i :| 0 <= i < |data| && data[i] == r;
      DummyCell(data, i, k);
    }
    if k in OccurrenceTable(data).cell {
      var i :| 0 <= i < |ds| && k in ds[i].cell;
      DummyCell(data, i, k);
      assert data[i] in data;
    }
  }

  /** An occurrence cell is present on the grid, and is 1 iff some row has that brand and week. */
  lemma OccurrenceCell(data: seq<Row>, k: Key)
    ensures k in OccurrenceTable(data).cell <==> k.0 in BrandsOf(data) && k.1 in WeeksOf(data)
    ensures k in OccurrenceTable(data).cell ==>
      OccurrenceTable(data).cell[k] == (if Present(data, k.0, k.1) then 1 else 0)
  {
    OccurrenceCellPresent(data, k);
    var ds := Dummies(data);
    var t := OccurrenceTable(data);
    if k in t.cell {
      CombineMaxAt(ds, k);
      var i :| 0 <= i < |ds| && k in ds[i].cell && ds[i].cell[k] == t.cell[k];
      DummyCell(data, i, k);
      if Present(data, k.0, k.1) {
        var r :| r in data && r.brand == k.0 && r.week == k.1;
        var j :| 0 <= j < |data| && data[j] == r;
        DummyCell(data, j, k);
        assert ds[j].cell[k] <= t.cell[k];
      } else {
        assert data[i] in data;
      }
    }
  }

  /**
   * The occurrence frame of a file has one row per brand and one column per week of the
   * file, every cell present, and a cell is 1 iff some row has that brand and week, else 0.
   */
  lemma OccurrenceCells(data: seq<Row>)
    ensures OccurrenceTable(data).rows == BrandsOf(data)
    ensures OccurrenceTable(data).cols == WeeksOf(data)
    ensures Dense(OccurrenceTable(data))
    ensures forall b, w :: (b, w) in OccurrenceTable(data).cell ==>
      OccurrenceTable(data).cell[(b, w)] == (if Present(data, b, w) then 1 else 0)
  {
    var t := OccurrenceTable(data);
    OccurrenceLabels(data);
    forall k ensures k in t.cell <==> k in Grid(t.rows, t.cols) {
      OccurrenceCell(data, k);
    }
    forall b, w | (b, w) in t.cell ensures t.cell[(b, w)] == (if Present(data, b, w) then 1 else 0) {
      OccurrenceCell(data, (b, w));
    }
  }

  /** The measure a grouped sum adds up. */
  datatype Measure = Dollars | Units

  function Amount(r: Row, m: Measure): real {
    match m
    case Dollars => r.dollars
    case Units => r.units
  }

  /** What a row adds to the total of cell `k`. */
  function Contribution(k: Key, m: Measure): Row -> real {
    (r: Row) => if r.brand == k.0 && r.week == k.1 then Amount(r, m) else 0.0
  }

  /** The total of measure `m` over the rows of brand `k.0` in week `k.1`. */
  function SumAt(data: seq<Row>, k: Key, m: Measure): real {
    Sum(data, Contribution(k, m))
  }

  function KeysOf(data: seq<Row>): set<Key> {
    set r | r in data :: (r.brand, r.week)
  }

  /**
   * `data[[BRAND, WEEK, col]].groupby([BRAND, WEEK]).sum()`: one entry per (brand, week)
   * pair of the file, so every pair appears once, holding that pair's total.
   */
  function GroupSum(data: seq<Row>, m: Measure): map<Key, real> {
    map k | k in KeysOf(data) :: SumAt(data, k, m)
  }

  /** A (brand, week) pair no row has adds nothing. */
  lemma {:induction false} SumAtAbsent(data: seq<Row>, k: Key, m: Measure)
    requires k !in KeysOf(data)
    ensures SumAt(data, k, m) == 0.0
  {
    if data != [] {
      var pre := data[..|data| - 1];
      assert KeysOf(pre) <= KeysOf(data) by {
        forall x | x in KeysOf(pre) ensures x in KeysOf(data) {
          var r :| r in pre && x == (r.brand, r.week);
          assert r in data;
        }
      }
      SumAtAbsent(pre, k, m);
      assert data[|data| - 1] in data;
    }
  }

  /** Ingesting two files one after the other adds what ingesting their rows together adds. */
  lemma SumAtAppend(a: seq<Row>, b: seq<Row>, k: Key, m: Measure)
    ensures SumAt(a + b, k, m) == SumAt(a, k, m) + SumAt(b, k, m)
  {
    SumAppend(a, b, Contribution(k, m));
  }

  /** A frame after a file's rows are added into it: every cell grows by its pair's total, and nothing else changes. */
  function Accumulated(t: Table<real>, data: seq<Row>, m: Measure): Table<real> {
    Table(t.rows, t.cols, map k | k in t.cell :: t.cell[k] + SumAt(data, k, m))
  }

  /** Adding two files into a frame one after the other adds their rows at once. */
  lemma AccumulatedAppend(t: Table<real>, a: seq<Row>, b: seq<Row>, m: Measure)
    ensures Accumulated(Accumulated(t, a, m), b, m) == Accumulated(t, a + b, m)
  {
    var one, both := Accumulated(Accumulated(t, a, m), b, m), Accumulated(t, a + b, m);
    assert one.cell.Keys == both.cell.Keys == t.cell.Keys;
    forall k | k in t.cell ensures one.cell[k] == both.cell[k] {
      SumAtAppend(a, b, k, m);
    }
  }

  /** Adding no rows leaves a frame as it was. */
  lemma AccumulatedNothing(t: Table<real>, m: Measure)
    ensures Accumulated(t, [], m) == t
  {
    var none := Accumulated(t, [], m);
    forall k | k in t.cell ensures none.cell[k] == t.cell[k] {
      assert SumAt([], k, m) == 0.0;
    }
    assert none.cell == t.cell;
  }

  /** `pd.DataFrame(0.0, index=rows, columns=cols)`. */
  function ZeroTable(rows: set<Brand>, cols: set<Week>): Table<real> {
    Table(rows, cols, map k | k in Grid(rows, cols) :: 0.0)
  }

  /**
   * A year's finished matrix: one row per brand and one column per week, and in every cell
   * the total of the measure over the year's rows of that brand and week.
   */
  function YearTable(rows: set<Brand>, cols: set<Week>, data: seq<Row>, m: Measure): Table<real> {
    Table(rows, cols, map k | k in Grid(rows, cols) :: SumAt(data, k, m))
  }

  /** Adding the year's rows into a matrix of zeroes gives the year's matrix. */
  lemma AccumulatedFromZero(rows: set<Brand>, cols: set<Week>, data: seq<Row>, m: Measure)
    ensures Accumulated(ZeroTable(rows, cols), data, m) == YearTable(rows, cols, data, m)
    ensures Dense(YearTable(rows, cols, data, m))
  {
    GridMembers(rows, cols);
  }

  /** The grouped totals do not depend on the order of the file's rows. */
  lemma SumAtPermutation(a: seq<Row>, b: seq<Row>, k: Key, m: Measure)
    requires multiset(a) == multiset(b)
    ensures SumAt(a, k, m) == SumAt(b, k, m)
  {
    SumPermutation(a, b, Contribution(k, m));
  }

  /** The number in cell `k`, counting NaN as 0 as `sum` does. */
  function Get0(t: Table<real>, k: Key): real {
    if k in t.cell then t.cell[k] else 0.0
  }

  function CellOf(k: Key): Table<real> -> real {
    (t: Table<real>) => Get0(t, k)
  }

  /** Stacking two frames and adding the numbers present in each cell of the union of their labels. */
  function SumMerge(a: Table<real>, b: Table<real>): Table<real> {
    var rows, cols := a.rows + b.rows, a.cols + b.cols;
    Table(rows, cols, map k | k in Grid(rows, cols) :: Get0(a, k) + Get0(b, k))
  }

  /** A merged sum covers the union of the labels densely, and reads as the two frames' numbers added, NaN as 0. */
  lemma SumMergeAt(a: Table<real>, b: Table<real>, k: Key)
    requires Framed(a) && Framed(b)
    ensures var r := SumMerge(a, b);
      r.rows == a.rows + b.rows && r.cols == a.cols + b.cols && Dense(r) &&
      Get0(r, k) == Get0(a, k) + Get0(b, k)
  {
    GridMembers(a.rows + b.rows, a.cols + b.cols);
  }

  /**
   * `pd.concat(ts).groupby(level=0).sum()`: rows and columns are the union of the frames',
   * and every cell of that grid is the sum of the numbers the frames have there (0 when
   * none has one).
   */
  function CombineSum(ts: seq<Table<real>>): Table<real> {
    if ts == [] then Table({}, {}, map[]) else SumMerge(CombineSum(ts[..|ts| - 1]), ts[|ts| - 1])
  }

  /** The summed frame is dense, and each of its cells is the sum over the frames of their number there. */
  lemma {:induction false} CombineSumAt(ts: seq<Table<real>>, k: Key)
    requires forall i :: 0 <= i < |ts| ==> Framed(ts[i])
    ensures Dense(CombineSum(ts))
    ensures Get0(CombineSum(ts), k) == Sum(ts, CellOf(k))
  {
    if ts != [] {
      var n := |ts| - 1;
      var pre, last := ts[..n], ts[n];
      assert forall i :: 0 <= i < n ==> pre[i] == ts[i];
      CombineSumAt(pre, k);
      var c := CombineSum(pre);
      GridMembers(c.rows + last.rows, c.cols + last.cols);
      if !(k.0 in c.rows + last.rows && k.1 in c.cols + last.cols) {
        assert k !in last.cell;
        assert k !in c.cell;
      }
    }
  }

  /** The combined rows and columns are the union of every frame's. */
  lemma {:induction false} CombineSumLabels(ts: seq<Table<real>>)
    ensures forall b :: b in CombineSum(ts).rows <==> exists i :: 0 <= i < |ts| && b in ts[i].rows
    ensures forall w :: w in CombineSum(ts).cols <==> exists i :: 0 <= i < |ts| && w in ts[i].cols
  {
    if ts != [] {
      var n := |ts| - 1;
      CombineSumLabels(ts[..n]);
      assert forall i :: 0 <= i < n ==> ts[..n][i] == ts[i];
    }
  }

  /** The sum reduction does not depend on the order in which the frames were collected. */
  lemma CombineSumPermutation(ts: seq<Table<real>>, us: seq<Table<real>>)
    requires multiset(ts) == multiset(us)
    requires forall i :: 0 <= i < |ts| ==> Framed(ts[i])
    ensures CombineSum(ts) == CombineSum(us)
  {
    var a, b := CombineSum(ts), CombineSum(us);
    forall t ensures t in ts <==> t in us {
      assert t in ts <==> t in multiset(ts);
      assert t in us <==> t in multiset(us);
    }
    forall j | 0 <= j < |us| ensures Framed(us[j]) {
      assert us[j] in ts;
    }
    CombineSumLabels(ts);
    CombineSumLabels(us);
    assert a.rows == b.rows by {
      forall x ensures x in a.rows <==> x in b.rows {
        if x in a.rows {
          var i :| 0 <= i < |ts| && x in ts[i].rows;
          assert ts[i] in us;
        }
        if x in b.rows {
          var i :| 0 <= i < |us| && x in us[i].rows;
          assert us[i] in ts;
        }
      }
    }
    assert a.cols == b.cols by {
      forall x ensures x in a.cols <==> x in b.cols {
        if x in a.cols {
          var i :| 0 <= i < |ts| && x in ts[i].cols;
          assert ts[i] in us;
        }
        if x in b.cols {
          var i :| 0 <= i < |us| && x in us[i].cols;
          assert us[i] in ts;
        }
      }
    }
    forall k ensures (k in a.cell <==> k in b.cell) && (k in a.cell ==> a.cell[k] == b.cell[k]) {
      CombineSumAt(ts, k);
      CombineSumAt(us, k);
      SumPermutation(ts, us, CellOf(k));
    }
    assert a.cell == b.cell;
  }

  /**
   * `sales / units` aligned on the union of both frames' labels. A cell is a number where
   * both frames have one and the units are not 0; elsewhere it is NaN or an infinity,
   * written None.
   */
  function UnitPrice(sales: Table<real>, units: Table<real>): (p: Table<Option<real>>)
    ensures p.rows == sales.rows + units.rows && p.cols == sales.cols + units.cols && Dense(p)
    ensures forall k :: k in p.cell ==>
      (p.cell[k].Some? <==> k in sales.cell && k in units.cell && units.cell[k] != 0.0)
    ensures forall k :: k in p.cell && p.cell[k].Some? ==> p.cell[k].value * units.cell[k] == sales.cell[k]
  {
    var rows, cols := sales.rows + units.rows, sales.cols + units.cols;
    GridMembers(rows, cols);
    Table(rows, cols, map k | k in Grid(rows, cols) ::
      if k in sales.cell && k in units.cell && units.cell[k] != 0.0
      then Some(sales.cell[k] / units.cell[k]) else None)
  }

  /** Where the quotient of a total by summed units is a number, the units summed to a non-zero amount and it is their quotient. */
  lemma UnitPriceOfSums(sales: Table<real>, ts: seq<Table<real>>, k: Key)
    requires forall i :: 0 <= i < |ts| ==> Framed(ts[i])
    requires k in UnitPrice(sales, CombineSum(ts)).cell && UnitPrice(sales, CombineSum(ts)).cell[k].Some?
    ensures k in sales.cell && Sum(ts, CellOf(k)) != 0.0
    ensures UnitPrice(sales, CombineSum(ts)).cell[k].value == sales.cell[k] / Sum(ts, CellOf(k))
  {
    CombineSumAt(ts, k);
  }

  /** `pd.concat(parts)` of row-wise frames: their rows one after another. */
  function ConcatRows(parts: seq<seq<Record>>): seq<Record> {
    if parts == [] then [] else ConcatRows(parts[..|parts| - 1]) + parts[|parts| - 1]
  }

  /** Every row of every part, and nothing else, is in the concatenation. */
  lemma {:induction false} ConcatRowsMembers(parts: seq<seq<Record>>)
    ensures forall x :: x in ConcatRows(parts) <==> exists i :: 0 <= i < |parts| && x in parts[i]
  {
    if parts != [] {
      var n := |parts| - 1;
      ConcatRowsMembers(parts[..n]);
      assert forall i :: 0 <= i < n ==> parts[..n][i] == parts[i];
    }
  }

  /** Concatenating two lists of parts is concatenating their concatenations. */
  lemma {:induction false} ConcatRowsAppend(a: seq<seq<Record>>, b: seq<seq<Record>>)
    ensures ConcatRows(a + b) == ConcatRows(a) + ConcatRows(b)
  {
    if b == [] {
      assert a + b == a;
    } else {
      var n := |b| - 1;
      assert (a + b)[..|a + b| - 1] == a + b[..n] && (a + b)[|a + b| - 1] == b[n];
      ConcatRowsAppend(a, b[..n]);
      calc {
        ConcatRows(a + b);
        ConcatRows(a + b[..n]) + b[n];
        (ConcatRows(a) + ConcatRows(b[..n])) + b[n];
        ConcatRows(a) + (ConcatRows(b[..n]) + b[n]);
      }
    }
  }
}
