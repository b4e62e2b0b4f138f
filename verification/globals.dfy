/** The constants of the program's settings module. */
module Globals {

  /** The eleven survey years, 2001 to 2011, numbered from 1. */
  const Years: seq<int> := [1, 2, 3, 4, 5, 6, 7, 8, 9, 10, 11]

  /** The three outlets of every year: drug stores, grocery stores and the MA panel. */
  const Outlets: seq<string> := ["drug", "groc", "MA"]

  /** The one worksheet and the two columns read from a reference (stub) workbook. */
  const SheetName := "Sheet1"
  const BrandCol := "L5"
  const UpcCol := "UPC"

  /** First and last week index of year 1 and of the 53-week year 6. */
  const Year1Beg := 1114
  const Year1End := 1165
  const Year6Beg := 1374
  const Year6End := 1426

  /** Directories of the three reference cohorts: year 1, year 7, years 8 to 11. */
  const Stubs := "parsed_stub_files"
  const Stubs2007 := "parsed_stub_files2007"
  const Stubs2008 := "parsed_stub_files2008-2011"
}
