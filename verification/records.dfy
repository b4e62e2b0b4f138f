/**
 * What the aggregation reads, as values: the rows pandas would parse out of the stub
 * workbooks and the store and panel files, the directory listings, and the errors the
 * Python code raises.
 */
module Records {
  import opened Wrappers

  type Brand = string
  type Week = int

  /**
   * One parsed row of a scan-data file. Store files (drug, groc) carry the four UPC fields
   * in separate columns; panel files carry them as the one number COLUPC.
   */
  datatype Record =
    | StoreRecord(sy: nat, ge: nat, vend: nat, item: nat, week: Week, dollars: real, units: real)
    | PanelRecord(colupc: nat, week: Week, dollars: real, units: real)

  /** A row of `DataReader.data` once `reformat_upc` has added the UPC and brand columns. */
  datatype Row = Row(upc: string, brand: Brand, week: Week, dollars: real, units: real)

  /** A row of a stub workbook's sheet, reduced to its brand and UPC columns; the UPC may be empty. */
  datatype StubRow = StubRow(brand: Brand, upc: Option<string>)

  /** What `pd.read_csv` gives for a file: its rows, or EmptyDataError when there is nothing to parse. */
  datatype Parse = Rows(records: seq<Record>) | EmptyData

  /**
   * A data file: its first line, and what pandas parses from it comma-delimited and
   * whitespace-delimited.
   */
  datatype RawFile = RawFile(firstLine: string, asComma: Parse, asWhitespace: Parse)

  datatype Entry = Entry(name: string, file: RawFile)

  /** Directory path to the entries `os.listdir` gives for it, in listing order. */
  type FileSystem = map<string, seq<Entry>>

  /** Stub workbook path to the rows of its sheet. */
  type StubFiles = map<string, seq<StubRow>>

  /** The exceptions the aggregation can raise; none of them is caught. */
  datatype Error =
    | FileNotFound(path: string)
    | EmptyDataError(path: string)
    /** pandas' KeyError on selecting a column the frame lacks (`data['SY']`, `data['COLUPC']`). */
    | MissingColumn(column: string)
    | IndexError(text: string)
    /** KeyError on a missing key: a UPC not in the reference, a label not in a matrix. */
    | KeyError(key: string)
    | NoObjectsToConcatenate
    | AttributeError(name: string)
}
