/**
 * `DataReader`: the per-category state of the aggregation. It holds the UPC-to-brand
 * reference built from the stub workbooks, the brand-by-week sales and units matrices of
 * the current year, the rows of the current store file, and the lists the final
 * reductions combine.
 */
module DataReaders {
  import opened Wrappers
  import opened Collections
  import opened Text
  import opened UpcKeys
  import opened Globals
  import opened Weeks
  import opened Records
  import opened Tables

  /** `os.path.join(dir, name)` on a POSIX system. */
  function JoinPath(dir: string, name: string): string {
    dir + "/" + name
  }

  /** The stub workbook of a reference cohort; only years 1, 7 and 8 start one. */
  function StubPath(cat: string, time: int): (p: Option<string>)
    ensures p.Some? <==> time == 1 || time == 7 || time == 8
  {
    if time == 1 then Some(JoinPath(Stubs, "prod_" + cat + ".xls"))
    else if time == 7 then Some(JoinPath(Stubs2007, "prod_" + cat + ".xlsx"))
    else if time == 8 then Some(JoinPath(Stubs2008, "prod11_" + cat + ".xlsx"))
    else None
  }

  /** One stub row entered into the reference: skipped when its UPC is empty, else keyed by the UPC without dashes. */
  function InsertStubRow(m: map<string, Brand>, row: StubRow): (r: map<string, Brand>)
    ensures row.upc.None? ==> r == m
    ensures row.upc.Some? ==> r.Keys == m.Keys + {RemoveDashes(row.upc.value)} && r[RemoveDashes(row.upc.value)] == row.brand
    ensures forall k :: k in m && !EntersKey(row, k) ==> k in r && r[k] == m[k]
  {
    match row.upc
    case None => m
    case Some(u) => m[RemoveDashes(u) := row.brand]
  }

  /** The reference after the rows of a stub sheet are entered in order. */
  function WithStubRows(m: map<string, Brand>, rows: seq<StubRow>): map<string, Brand> {
    if rows == [] then m else InsertStubRow(WithStubRows(m, rows[..|rows| - 1]), rows[|rows| - 1])
  }

  /** The reference after `create_reference` of year `time` succeeds: the cohort's stub rows entered, if the year starts one. */
  function WithCohort(ref: map<string, Brand>, cat: string, time: int, stubs: StubFiles): map<string, Brand> {
    match StubPath(cat, time)
    case None => ref
    case Some(p) => if p in stubs then WithStubRows(ref, stubs[p]) else ref
  }

  /** The key a stub row is entered under, when it has a UPC. */
  predicate EntersKey(row: StubRow, k: string) {
    row.upc.Some? && RemoveDashes(row.upc.value) == k
  }

  /** Entering stub rows never removes a key. */
  lemma {:induction false} ReferenceKeeps(m: map<string, Brand>, rows: seq<StubRow>)
    ensures m.Keys <= WithStubRows(m, rows).Keys
  {
    if rows != [] {
      ReferenceKeeps(m, rows[..|rows| - 1]);
    }
  }

  /** A key no row enters keeps its presence and its brand; in particular rows without a UPC change nothing. */
  lemma {:induction false} ReferenceUntouched(m: map<string, Brand>, rows: seq<StubRow>, k: string)
    requires forall i :: 0 <= i < |rows| ==> !EntersKey(rows[i], k)
    ensures k in WithStubRows(m, rows) <==> k in m
    ensures k in m ==> WithStubRows(m, rows)[k] == m[k]
  {
    if rows != [] {
      ReferenceUntouched(m, rows[..|rows| - 1], k);
    }
  }

  /** The last row entering a key decides its brand. */
  lemma {:induction false} ReferenceLastWriteWins(m: map<string, Brand>, rows: seq<StubRow>, i: nat, k: string)
    requires i < |rows| && EntersKey(rows[i], k)
    requires forall j :: i < j < |rows| ==> !EntersKey(rows[j], k)
    ensures k in WithStubRows(m, rows) && WithStubRows(m, rows)[k] == rows[i].brand
  {
    var n := |rows| - 1;
    if i < n {
      ReferenceLastWriteWins(m, rows[..n], i, k);
    }
  }

  /** Every key the rows add is the UPC of one of them with its dashes removed. */
  lemma {:induction false} ReferenceNewKeys(m: map<string, Brand>, rows: seq<StubRow>, k: string)
    requires k in WithStubRows(m, rows) && k !in m
    ensures '-' !in k
    ensures exists i :: 0 <= i < |rows| && EntersKey(rows[i], k)
  {
    var n := |rows| - 1;
    if EntersKey(rows[n], k) {
    } else {
      ReferenceNewKeys(m, rows[..n], k);
      var i :| 0 <= i < n && EntersKey(rows[..n][i], k);
      assert EntersKey(rows[i], k);
    }
  }

  /** The directory holding year `time`'s files of category `cat`. */
  function TargetDir(cat: string, time: int): string {
    if time < 8 then JoinPath(JoinPath("Year" + IntToString(time), "External"), cat)
    else JoinPath("Year" + IntToString(time), cat)
  }

  /** Different years read different directories of a category. */
  lemma TargetDirsDiffer(cat: string, s: int, t: int)
    requires s != t
    ensures TargetDir(cat, s) != TargetDir(cat, t)
  {
    TargetDirShape(cat, s);
    TargetDirShape(cat, t);
    NumeralHasNoSlash(s);
    NumeralHasNoSlash(t);
    NumeralsDiffer(s, t);
    HeadsDiffer(IntToString(s), if s < 8 then "External/" + cat else cat, IntToString(t), if t < 8 then "External/" + cat else cat);
  }

  /** A year's directory is "Year", the year's number, '/' and the rest of the path. */
  lemma TargetDirShape(cat: string, t: int)
    ensures TargetDir(cat, t) == "Year" + (IntToString(t) + "/" + (if t < 8 then "External/" + cat else cat))
  {
  }

  /** Two "Year" paths whose parts before the first '/' differ are different. */
  lemma HeadsDiffer(x: string, a: string, y: string, b: string)
    requires '/' !in x && '/' !in y && x != y
    ensures "Year" + (x + "/" + a) != "Year" + (y + "/" + b)
  {
    if "Year" + (x + "/" + a) == "Year" + (y + "/" + b) {
      assert x + "/" + a == ("Year" + (x + "/" + a))[4..];
      SlashSplit(x, a, y, b);
      assert false;
    }
  }

  lemma NumeralHasNoSlash(i: int)
    ensures '/' !in IntToString(i)
  {
    var s := IntToString(i);
    var digits := if i < 0 then s[1..] else s;
    forall k | 0 <= k < |s| ensures s[k] != '/' {
      if i >= 0 {
        assert IsDigit(digits[k]);
      } else if k > 0 {
        assert IsDigit(digits[k - 1]);
      }
    }
  }

  /** The part before the first '/' is determined by the joined path. */
  lemma SlashSplit(x: string, a: string, y: string, b: string)
    requires '/' !in x && '/' !in y
    requires x + "/" + a == y + "/" + b
    ensures x == y
  {
    if |x| < |y| {
      SlashAfter(y, b, |x|);
      assert false;
    } else if |y| < |x| {
      SlashAfter(x, a, |y|);
      assert false;
    } else {
      assert x == (x + "/" + a)[..|x|] && y == (y + "/" + b)[..|y|];
    }
  }

  /** Before the first '/' of a joined path lie the characters of its head. */
  lemma SlashAfter(x: string, a: string, k: nat)
    requires '/' !in x && k < |x|
    ensures (x + "/" + a)[k] == x[k] != '/'
  {
  }

  /** `str` spells different ints differently. */
  lemma NumeralsDiffer(s: int, t: int)
    requires s != t
    ensures IntToString(s) != IntToString(t)
  {
    var x, y := IntToString(s), IntToString(t);
    IntToStringValue(s);
    IntToStringValue(t);
    if s < 0 && t < 0 {
      assert x[1..] != y[1..];
    }
  }

  /** The name of a store's file: drug and grocery files by store, the MA outlet by its panel file. */
  function StoreFileName(cat: string, store: string, beg: int, end: int): (name: string)
    ensures store == "MA" ==> Contains(name, "_PANEL_")
  {
    if store != "MA" then cat + "_" + store + "_" + IntToString(beg) + "_" + IntToString(end)
    else
      var rest := "MA_" + IntToString(beg) + "_" + IntToString(end) + ".dat";
      ContainsMiddle(cat, "_PANEL_", rest);
      cat + "_PANEL_" + rest
  }

  /** The three outlets of a year read three different files. */
  lemma OutletFilesDiffer(cat: string, beg: int, end: int)
    ensures StoreFileName(cat, "drug", beg, end) != StoreFileName(cat, "groc", beg, end)
    ensures StoreFileName(cat, "drug", beg, end) != StoreFileName(cat, "MA", beg, end)
    ensures StoreFileName(cat, "groc", beg, end) != StoreFileName(cat, "MA", beg, end)
  {
    var x, y := IntToString(beg), IntToString(end);
    var drug, groc, ma := StoreFileName(cat, "drug", beg, end), StoreFileName(cat, "groc", beg, end), StoreFileName(cat, "MA", beg, end);
    assert drug == cat + "_" + "drug" + ("_" + x + "_" + y);
    assert groc == cat + "_" + "groc" + ("_" + x + "_" + y);
    assert ma == cat + "_" + "PANEL_" + ("MA_" + x + "_" + y + ".dat");
    CharAfterCategory(cat, "drug", "_" + x + "_" + y);
    CharAfterCategory(cat, "groc", "_" + x + "_" + y);
    CharAfterCategory(cat, "PANEL_", "MA_" + x + "_" + y + ".dat");
  }

  /** The character after `cat` and its underscore in a file name. */
  lemma CharAfterCategory(cat: string, word: string, rest: string)
    requires |word| > 0
    ensures (cat + "_" + word + rest)[|cat| + 1] == word[0]
  {
  }

  /** The first directory entry of that name. */
  function FindEntry(entries: seq<Entry>, name: string): (r: Option<RawFile>)
    ensures r.None? <==> forall e :: e in entries ==> e.name != name
    ensures r.Some? ==> Entry(name, r.value) in entries
  {
    if entries == [] then None
    else if entries[0].name == name then Some(entries[0].file)
    else FindEntry(entries[1..], name)
  }

  /** `pd.read_csv` comma-delimited when the first line holds a comma, whitespace-delimited otherwise. */
  function ChooseParse(f: RawFile): Parse {
    if ',' in f.firstLine then f.asComma else f.asWhitespace
  }

  /**
   * Opening `dir/name` and parsing it with the delimiter its first line shows: a missing
   * file raises FileNotFoundError, a file with nothing to parse EmptyDataError.
   */
  function ReadDataFile(fs: FileSystem, dir: string, name: string): (r: Result<seq<Record>, Error>)
    ensures r.Ok? ==> dir in fs
    ensures r.Ok? ==> exists e :: e in fs[dir] && e.name == name && ChooseParse(e.file) == Rows(r.value)
    ensures (dir !in fs || forall e :: e in fs[dir] ==> e.name != name) <==> r == Err(FileNotFound(JoinPath(dir, name)))
    ensures r.Err? ==> r.error == FileNotFound(JoinPath(dir, name)) || r.error == EmptyDataError(JoinPath(dir, name))
  {
    if dir !in fs then Err(FileNotFound(JoinPath(dir, name)))
    else match FindEntry(fs[dir], name)
      case None => Err(FileNotFound(JoinPath(dir, name)))
      case Some(f) =>
        assert Entry(name, f) in fs[dir];
        match ChooseParse(f)
        case EmptyData => Err(EmptyDataError(JoinPath(dir, name)))
        case Rows(rs) => Ok(rs)
  }

  /**
   * The UPC key of one record: policy A on the four fields for a drug or grocery file,
   * policy B on the text of COLUPC for the MA panel file. A record without the columns
   * the policy reads stands for a frame missing that column (KeyError in pandas); a COLUPC
   * of fewer than 11 digits raises IndexError.
   */
  function KeyOf(r: Record, store: string): (k: Result<string, Error>)
    ensures k.Ok? <==> if store != "MA" then r.StoreRecord? else r.PanelRecord? && |NatToString(r.colupc)| >= 11
    ensures k.Ok? ==> AllDigits(k.value) && |k.value| >= 14
    ensures k.Ok? && r.StoreRecord? ==> k.value == KeyFromFields(r.sy, r.ge, r.vend, r.item)
    ensures k.Ok? && r.PanelRecord? ==> KeyFromColupc(NatToString(r.colupc)) == Some(k.value)
    ensures store == "MA" && r.PanelRecord? && k.Err? ==> k.error == IndexError(NatToString(r.colupc))
  {
    if store != "MA" then
      match r
      case StoreRecord(sy, ge, vend, item, _, _, _) => Ok(KeyFromFields(sy, ge, vend, item))
      case PanelRecord(_, _, _, _) => Err(MissingColumn("SY"))
    else
      match r
      case PanelRecord(colupc, _, _, _) =>
        (match KeyFromColupc(NatToString(colupc))
         case Some(k) => Ok(k)
         case None => Err(IndexError(NatToString(colupc))))
      case StoreRecord(_, _, _, _, _, _, _) => Err(MissingColumn("COLUPC"))
  }

  /** The UPC column: every record's key, or the error of the first record without one. */
  function UpcColumn(records: seq<Record>, store: string): (r: Result<seq<string>, Error>)
    ensures r.Ok? <==> forall i :: 0 <= i < |records| ==> KeyOf(records[i], store).Ok?
    ensures r.Ok? ==> |r.value| == |records| &&
                      (forall i :: 0 <= i < |records| ==> r.value[i] == KeyOf(records[i], store).value)
    ensures r.Err? ==> exists i :: 0 <= i < |records| && KeyOf(records[i], store) == Err(r.error) &&
                         (forall j :: 0 <= j < i ==> KeyOf(records[j], store).Ok?)
  {
    if records == [] then Ok([])
    else match KeyOf(records[0], store)
      case Err(e) => Err(e)
      case Ok(k) =>
        match UpcColumn(records[1..], store)
        case Err(e) =>
          KeyErrorShift(records, store, e);
          Err(e)
        case Ok(ks) =>
          assert forall j :: 1 <= j < |records| ==> records[j] == records[1..][j - 1];
          Ok([k] + ks)
  }

  /** The first record without a key, seen from the record before it. */
  lemma KeyErrorShift(records: seq<Record>, store: string, e: Error)
    requires |records| > 0 && KeyOf(records[0], store).Ok?
    requires exists i :: 0 <= i < |records[1..]| && KeyOf(records[1..][i], store) == Err(e) && (forall j :: 0 <= j < i ==> KeyOf(records[1..][j], store).Ok?)
    ensures exists i :: 0 <= i < |records| && KeyOf(records[i], store) == Err(e) && (forall j :: 0 <= j < i ==> KeyOf(records[j], store).Ok?)
  {
    var i :| 0 <= i < |records[1..]| && KeyOf(records[1..][i], store) == Err(e) &&
      (forall j :: 0 <= j < i ==> KeyOf(records[1..][j], store).Ok?);
    forall j | 0 <= j < i + 1 ensures KeyOf(records[j], store).Ok? {
      if j > 0 {
        assert records[j] == records[1..][j - 1];
      }
    }
    assert records[i + 1] == records[1..][i];
  }

  /** The brand column: `ref[upc]` for every key, or KeyError for the first key the reference lacks. */
  function BrandColumn(keys: seq<string>, ref: map<string, Brand>): (r: Result<seq<Brand>, Error>)
    ensures r.Ok? <==> forall i :: 0 <= i < |keys| ==> keys[i] in ref
    ensures r.Ok? ==> |r.value| == |keys| && forall i :: 0 <= i < |keys| ==> r.value[i] == ref[keys[i]]
    ensures r.Err? ==> exists i :: 0 <= i < |keys| && keys[i] !in ref && r.error == KeyError(keys[i]) &&
                         (forall j :: 0 <= j < i ==> keys[j] in ref)
  {
    if keys == [] then Ok([])
    else if keys[0] !in ref then Err(KeyError(keys[0]))
    else match BrandColumn(keys[1..], ref)
      case Err(e) =>
        MissingKeyShift(keys, ref, e);
        Err(e)
      case Ok(bs) =>
        assert forall j :: 1 <= j < |keys| ==> keys[j] == keys[1..][j - 1];
        Ok([ref[keys[0]]] + bs)
  }

  /** The first key the reference lacks, seen from the key before it. */
  lemma MissingKeyShift(keys: seq<string>, ref: map<string, Brand>, e: Error)
    requires |keys| > 0 && keys[0] in ref
    requires exists i :: 0 <= i < |keys[1..]| && keys[1..][i] !in ref && e == KeyError(keys[1..][i]) && (forall j :: 0 <= j < i ==> keys[1..][j] in ref)
    ensures exists i :: 0 <= i < |keys| && keys[i] !in ref && e == KeyError(keys[i]) && (forall j :: 0 <= j < i ==> keys[j] in ref)
  {
    var i :| 0 <= i < |keys[1..]| && keys[1..][i] !in ref && e == KeyError(keys[1..][i]) &&
      (forall j :: 0 <= j < i ==> keys[1..][j] in ref);
    forall j | 0 <= j < i + 1 ensures keys[j] in ref {
      if j > 0 {
        assert keys[j] == keys[1..][j - 1];
      }
    }
    assert keys[i + 1] == keys[1..][i];
  }

  /**
   * `reformat_upc` on the parsed records of a file: the UPC column is built for all rows
   * first, then the brand column looks every key up in the reference.
   */
  function Resolve(records: seq<Record>, store: string, ref: map<string, Brand>): (r: Result<seq<Row>, Error>)
    ensures r.Ok? <==> forall i :: 0 <= i < |records| ==>
      KeyOf(records[i], store).Ok? && KeyOf(records[i], store).value in ref
    ensures r.Ok? ==> |r.value| == |records| && forall i :: 0 <= i < |records| ==>
      var k := KeyOf(records[i], store).value;
      r.value[i] == Row(k, ref[k], records[i].week, records[i].dollars, records[i].units)
    ensures r.Ok? ==> forall row :: row in r.value ==> row.upc in ref && row.brand == ref[row.upc] && row.brand in ref.Values
  {
    match UpcColumn(records, store)
    case Err(e) => Err(e)
    case Ok(keys) =>
      match BrandColumn(keys, ref)
      case Err(e) => Err(e)
      case Ok(brands) =>
        Ok(seq(|records|, i requires 0 <= i < |records| =>
          Row(keys[i], brands[i], records[i].week, records[i].dollars, records[i].units)))
  }

  /**
   * The rows `store_data` leaves for one store of year `time`: the store's file of the
   * year's directory, named by the year's week range, parsed and resolved against `ref`.
   */
  function StoreRows(fs: FileSystem, cat: string, time: int, store: string, ref: map<string, Brand>): (r: Result<seq<Row>, Error>)
    ensures r.Ok? ==> forall row :: row in r.value ==> row.brand in ref.Values
  {
    var (beg, end) := WeekRange(time);
    match ReadDataFile(fs, TargetDir(cat, time), StoreFileName(cat, store, beg, end))
    case Err(e) => Err(e)
    case Ok(records) => Resolve(records, store, ref)
  }

  /** The cell at a pair of labels, found as `get_loc` finds them. */
  function CellAt(a: array2<real>, rows: seq<Brand>, cols: seq<Week>, k: Key): real
    reads a
    requires a.Length0 == |rows| && a.Length1 == |cols|
  {
    match (IndexOf(rows, k.0), IndexOf(cols, k.1))
    case (Some(i), Some(j)) => a[i, j]
    case _ => 0.0
  }

  lemma CellAtLabels(a: array2<real>, rows: seq<Brand>, cols: seq<Week>, i: nat, j: nat)
    requires a.Length0 == |rows| && a.Length1 == |cols| && Distinct(rows) && Distinct(cols)
    requires i < |rows| && j < |cols|
    ensures rows[i] in Elems(rows) && cols[j] in Elems(cols)
    ensures CellAt(a, rows, cols, (rows[i], cols[j])) == a[i, j]
  {
  }

  /** The DataFrame whose values buffer is `a`, indexed by `rows` and with columns `cols`. */
  function Snapshot(a: array2<real>, rows: seq<Brand>, cols: seq<Week>): (t: Table<real>)
    reads a
    requires a.Length0 == |rows| && a.Length1 == |cols|
    ensures t.rows == Elems(rows) && t.cols == Elems(cols) && Dense(t)
    ensures Distinct(rows) && Distinct(cols) ==> forall i, j :: 0 <= i < |rows| && 0 <= j < |cols| ==>
      (rows[i], cols[j]) in t.cell && t.cell[(rows[i], cols[j])] == a[i, j]
  {
    GridMembers(Elems(rows), Elems(cols));
    var t := Table(Elems(rows), Elems(cols), map k | k in Grid(Elems(rows), Elems(cols)) :: CellAt(a, rows, cols, k));
    assert Distinct(rows) && Distinct(cols) ==> forall i, j :: 0 <= i < |rows| && 0 <= j < |cols| ==>
      (rows[i], cols[j]) in t.cell && t.cell[(rows[i], cols[j])] == a[i, j] by {
      if Distinct(rows) && Distinct(cols) {
        forall i, j | 0 <= i < |rows| && 0 <= j < |cols|
          ensures (rows[i], cols[j]) in t.cell && t.cell[(rows[i], cols[j])] == a[i, j]
        {
          CellAtLabels(a, rows, cols, i, j);
        }
      }
    }
    t
  }

  /** A matrix of zeroes is the frame of zeroes on its labels. */
  lemma ZeroSnapshot(a: array2<real>, rows: seq<Brand>, cols: seq<Week>)
    requires a.Length0 == |rows| && a.Length1 == |cols|
    requires forall i, j :: 0 <= i < |rows| && 0 <= j < |cols| ==> a[i, j] == 0.0
    ensures Snapshot(a, rows, cols) == ZeroTable(Elems(rows), Elems(cols))
  {
  }

  /** `pd.DataFrame(0.0, ...)`'s values: a fresh matrix of zeroes. */
  method ZeroMatrix(m: nat, n: nat) returns (a: array2<real>)
    ensures fresh(a) && a.Length0 == m && a.Length1 == n
    ensures forall i, j :: 0 <= i < m && 0 <= j < n ==> a[i, j] == 0.0
  {
    a := new real[m, n]((i, j) => 0.0);
  }

  /**
   * `pd.DataFrame(0.0, index=brands, columns=weeks)` twice: the brands listed once each,
   * the weeks `beg..end` in order, and two fresh matrices of zeroes of that shape.
   */
  method ZeroFrames(brands: set<Brand>, beg: int, end: int) returns (rows: seq<Brand>, cols: seq<Week>, sales: array2<real>, units: array2<real>)
    requires beg <= end
    ensures Distinct(rows) && Elems(rows) == brands && |rows| == |brands|
    ensures Distinct(cols) && cols == Range(beg, end) && |cols| == end - beg + 1
    ensures fresh(sales) && fresh(units) && sales != units
    ensures sales.Length0 == units.Length0 == |rows| && sales.Length1 == units.Length1 == |cols|
    ensures forall i, j :: 0 <= i < |rows| && 0 <= j < |cols| ==> sales[i, j] == 0.0 && units[i, j] == 0.0
  {
    rows := Enumerate(brands);
    cols := Range(beg, end);
    RangeDistinct(beg, end);
    sales := ZeroMatrix(|rows|, |cols|);
    units := ZeroMatrix(|rows|, |cols|);
  }

  class DataReader {
    /** UPC key to brand, from every stub workbook read so far. */
    var ref: map<string, Brand>
    /** The values of the year's sales and units frames, and the frames' brand index and week columns. */
    var salesData: array2<real>
    var unitsData: array2<real>
    var rowLabels: seq<Brand>
    var colLabels: seq<Week>
    /** The year's directory and week range; None before the first `create_zeroes`. */
    var targetDir: Option<string>
    var beg: int
    var end: int
    /** The category, year and store of the file read last. */
    var cat: string
    var time: int
    var store: string
    /** The rows of the file read last; None before the first `store_data`. */
    var data: Option<seq<Row>>
    /** The frames the final reductions combine. */
    var occList: seq<Table<int>>
    var salesList: seq<Table<real>>
    var unitsList: seq<Table<real>>
    var panelList: seq<seq<Record>>
    /** Set by `sales()`; `units()` divides it. */
    var totalSales: Option<Table<real>>

    /** The two matrices are different buffers shaped by the labels, and the labels are unique. */
    ghost predicate Valid()
      reads this
    {
      salesData != unitsData && Labelled(salesData) && Labelled(unitsData) && ListsFramed()
    }

    /** A matrix shaped by the labels, which are unique. */
    ghost predicate Labelled(a: array2<real>)
      reads this`rowLabels, this`colLabels
    {
      a.Length0 == |rowLabels| && a.Length1 == |colLabels| && Distinct(rowLabels) && Distinct(colLabels)
    }

    /** No collected snapshot has a cell outside its labels. */
    ghost predicate ListsFramed()
      reads this`salesList, this`unitsList
    {
      (forall i :: 0 <= i < |salesList| ==> Framed(salesList[i])) &&
      (forall i :: 0 <= i < |unitsList| ==> Framed(unitsList[i]))
    }

    /** An empty reference and empty lists; the matrices are empty until `create_zeroes`. */
    constructor ()
      ensures Valid() && fresh(salesData) && fresh(unitsData)
      ensures ref == map[] && targetDir == None && data == None && totalSales == None
      ensures occList == [] && salesList == [] && unitsList == [] && panelList == []
    {
      ref := map[];
      salesData := new real[0, 0];
      unitsData := new real[0, 0];
      rowLabels := [];
      colLabels := [];
      targetDir := None;
      beg, end := 0, 0;
      cat, time, store := "", 0, "";
      data := None;
      occList, salesList, unitsList, panelList := [], [], [], [];
      totalSales := None;
    }

    /**
     * `create_reference`: in years 1, 7 and 8, enters the rows of the cohort's stub sheet
     * into the reference; in any other year returns at once.
     */
    method CreateReference(cat: string, time: int, stubs: StubFiles) returns (o: Outcome<Error>)
      modifies this`ref
      ensures StubPath(cat, time).None? ==> o.Pass? && ref == old(ref)
      ensures StubPath(cat, time).Some? && StubPath(cat, time).value !in stubs ==>
        o == Fail(FileNotFound(StubPath(cat, time).value)) && ref == old(ref)
      ensures StubPath(cat, time).Some? && StubPath(cat, time).value in stubs ==>
        o.Pass? && ref == WithStubRows(old(ref), stubs[StubPath(cat, time).value])
      ensures o.Pass? ==> ref == WithCohort(old(ref), cat, time, stubs)
    {
      var path := StubPath(cat, time);
      if path.None? {
        return Pass;
      }
      if path.value !in stubs {
        return Fail(FileNotFound(path.value));
      }
      var rows := stubs[path.value];
      var i := 0;
      while i < |rows|
        invariant 0 <= i <= |rows|
        invariant ref == WithStubRows(old(ref), rows[..i])
      {
        assert rows[..i + 1][..i] == rows[..i];
        if rows[i].upc.Some? {
          ref := ref[RemoveDashes(rows[i].upc.value) := rows[i].brand];
        }
        i := i + 1;
      }
      assert rows[..i] == rows;
      return Pass;
    }

    /**
     * `create_zeroes`: fixes the year's directory and week range and makes fresh sales and
     * units matrices, one row per brand of the reference and one column per week of the
     * year in order, every cell 0.
     */
    method CreateZeroes(cat: string, time: int)
      modifies this`targetDir, this`beg, this`end, this`rowLabels, this`colLabels, this`salesData, this`unitsData
      requires Valid()
      ensures Valid() && fresh(salesData) && fresh(unitsData)
      ensures targetDir == Some(TargetDir(cat, time)) && (beg, end) == WeekRange(time)
      ensures Elems(rowLabels) == ref.Values && |rowLabels| == |ref.Values|
      ensures colLabels == Range(beg, end) && |colLabels| == end - beg + 1
      ensures forall i, j :: 0 <= i < |rowLabels| && 0 <= j < |colLabels| ==> salesData[i, j] == 0.0 && unitsData[i, j] == 0.0
    {
      var r := WeekRange(time);
      var brands, weeks, sales, units := ZeroFrames(ref.Values, r.0, r.1);
      targetDir := Some(TargetDir(cat, time));
      beg, end := r.0, r.1;
      rowLabels, colLabels := brands, weeks;
      salesData, unitsData := sales, units;
    }

    /**
     * `reformat_upc`: replaces the parsed records by rows carrying their UPC key and the
     * brand the reference gives it, or raises for the first record that has no key or
     * whose key the reference lacks.
     */
    method ReformatUpc(records: seq<Record>) returns (o: Outcome<Error>)
      modifies this`data
      ensures o.Pass? <==> Resolve(records, store, ref).Ok?
      ensures o.Pass? ==> data == Some(Resolve(records, store, ref).value)
      ensures o.Fail? ==> o.error == Resolve(records, store, ref).error && data == old(data)
    {
      match Resolve(records, store, ref)
      case Err(e) =>
        return Fail(e);
      case Ok(rows) =>
        data := Some(rows);
        return Pass;
    }

    /**
     * `store_data`: remembers the category, year and store, reads the store's file of the
     * year's directory with the delimiter its first line shows, and reformats its UPCs.
     */
    method StoreData(cat: string, time: int, store: string, fs: FileSystem) returns (o: Outcome<Error>)
      modifies this`cat, this`time, this`store, this`data
      ensures this.cat == cat && this.time == time && this.store == store
      ensures old(targetDir).None? ==> o == Fail(AttributeError("beg")) && data == old(data)
      ensures targetDir.Some? ==>
        var read := ReadDataFile(fs, targetDir.value, StoreFileName(cat, store, beg, end));
        (read.Err? ==> o == Fail(read.error) && data == old(data)) &&
        (read.Ok? ==> (o.Pass? <==> Resolve(read.value, store, ref).Ok?) &&
                      (o.Pass? ==> data == Some(Resolve(read.value, store, ref).value)) &&
                      (o.Fail? ==> o.error == Resolve(read.value, store, ref).error && data == old(data)))
    {
      this.cat := cat;
      this.time := time;
      this.store := store;
      if targetDir.None? {
        return Fail(AttributeError("beg"));
      }
      var read := ReadDataFile(fs, targetDir.value, StoreFileName(cat, store, beg, end));
      if read.Err? {
        return Fail(read.error);
      }
      o := ReformatUpc(read.value);
    }

    /**
     * `occurrence()`: the collected occurrence frames stacked and reduced by max per brand;
     * an empty list cannot be concatenated.
     */
    method Occurrence() returns (r: Result<Table<int>, Error>)
      ensures r.Err? <==> occList == []
      ensures r.Err? ==> r.error == NoObjectsToConcatenate
      ensures r.Ok? ==> r.value == CombineMax(occList)
      ensures r.Ok? ==> forall k :: (k in r.value.cell <==> exists i :: 0 <= i < |occList| && k in occList[i].cell)
      ensures r.Ok? ==> forall k, i :: 0 <= i < |occList| && k in occList[i].cell ==> occList[i].cell[k] <= r.value.cell[k]
      ensures r.Ok? ==> forall k :: k in r.value.cell ==>
        exists i :: 0 <= i < |occList| && k in occList[i].cell && occList[i].cell[k] == r.value.cell[k]
    {
      if occList == [] {
        return Err(NoObjectsToConcatenate);
      }
      var t := CombineMax(occList);
      forall k {
        CombineMaxAt(occList, k);
      }
      return Ok(t);
    }

    /**
     * `sales()`: the year snapshots of the sales matrix stacked and summed per brand, kept
     * as `total_sales` for `units()`.
     */
    method Sales() returns (o: Outcome<Error>)
      requires Valid()
      modifies this`totalSales
      ensures o.Fail? <==> salesList == []
      ensures o.Fail? ==> o.error == NoObjectsToConcatenate && totalSales == old(totalSales)
      ensures o.Pass? ==> totalSales == Some(CombineSum(salesList)) && Dense(totalSales.value)
      ensures o.Pass? ==> forall k :: Get0(totalSales.value, k) == Sum(salesList, CellOf(k))
    {
      if salesList == [] {
        return Fail(NoObjectsToConcatenate);
      }
      totalSales := Some(CombineSum(salesList));
      forall k ensures Dense(totalSales.value) && Get0(totalSales.value, k) == Sum(salesList, CellOf(k)) {
        CombineSumAt(salesList, k);
      }
      CombineSumAt(salesList, ("", 0));
      return Pass;
    }

    /**
     * `units()`: the units snapshots summed per brand, then the total sales divided by
     * them cell by cell; it needs `sales()` to have run.
     */
    method Units() returns (r: Result<Table<Option<real>>, Error>)
      requires Valid()
      ensures unitsList == [] ==> r == Err(NoObjectsToConcatenate)
      ensures unitsList != [] && totalSales.None? ==> r == Err(AttributeError("total_sales"))
      ensures unitsList != [] && totalSales.Some? ==> r.Ok?
      ensures r.Ok? ==> unitsList != [] && totalSales.Some?
      ensures r.Ok? ==> r.value == UnitPrice(totalSales.value, CombineSum(unitsList))
      ensures r.Ok? ==> forall k :: k in r.value.cell && r.value.cell[k].Some? ==>
        k in totalSales.value.cell && Sum(unitsList, CellOf(k)) != 0.0 &&
        r.value.cell[k].value == totalSales.value.cell[k] / Sum(unitsList, CellOf(k))
    {
      if unitsList == [] {
        return Err(NoObjectsToConcatenate);
      }
      if totalSales.None? {
        return Err(AttributeError("total_sales"));
      }
      var p := UnitPrice(totalSales.value, CombineSum(unitsList));
      forall k | k in p.cell && p.cell[k].Some?
        ensures k in totalSales.value.cell && Sum(unitsList, CellOf(k)) != 0.0 &&
          p.cell[k].value == totalSales.value.cell[k] / Sum(unitsList, CellOf(k))
      {
        UnitPriceOfSums(totalSales.value, unitsList, k);
      }
      return Ok(p);
    }

    /** `panels()`: the collected panel data concatenated; an empty list cannot be concatenated. */
    method Panels() returns (r: Result<seq<Record>, Error>)
      ensures r.Err? <==> panelList == []
      ensures r.Err? ==> r.error == NoObjectsToConcatenate
      ensures r.Ok? ==> r.value == ConcatRows(panelList)
      ensures r.Ok? ==> forall x :: x in r.value <==> exists i :: 0 <= i < |panelList| && x in panelList[i]
    {
      if panelList == [] {
        return Err(NoObjectsToConcatenate);
      }
      ConcatRowsMembers(panelList);
      return Ok(ConcatRows(panelList));
    }

    /** The current sales matrix as a frame. */
    function SalesFrame(): (t: Table<real>)
      reads this`salesData, this`rowLabels, this`colLabels, salesData
      requires Labelled(salesData)
      ensures t.rows == Elems(rowLabels) && t.cols == Elems(colLabels) && Dense(t)
      ensures forall i, j :: 0 <= i < |rowLabels| && 0 <= j < |colLabels| ==>
        (rowLabels[i], colLabels[j]) in t.cell && t.cell[(rowLabels[i], colLabels[j])] == salesData[i, j]
    {
      Snapshot(salesData, rowLabels, colLabels)
    }

    /** The current units matrix as a frame. */
    function UnitsFrame(): (t: Table<real>)
      reads this`unitsData, this`rowLabels, this`colLabels, unitsData
      requires Labelled(unitsData)
      ensures t.rows == Elems(rowLabels) && t.cols == Elems(colLabels) && Dense(t)
      ensures forall i, j :: 0 <= i < |rowLabels| && 0 <= j < |colLabels| ==>
        (rowLabels[i], colLabels[j]) in t.cell && t.cell[(rowLabels[i], colLabels[j])] == unitsData[i, j]
    {
      Snapshot(unitsData, rowLabels, colLabels)
    }
  }
}
