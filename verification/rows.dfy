/** A parsed CSV record: column name to cell text, as the CSV parser yields it with a header row. */
module Rows {

  type Row = map<string, string>

  /** Does `row.col` hold a truthy value (present and not the empty string)? */
  predicate Has(row: Row, col: string) {
    col in row && row[col] != ""
  }

  /** `row.col || fallback`: the cell when it is present and non-empty, otherwise the fallback. */
  function Or(row: Row, col: string, fallback: string): (r: string)
    ensures Has(row, col) ==> r == row[col]
    ensures !Has(row, col) ==> r == fallback
  {
    if Has(row, col) then row[col] else fallback
  }
}
