/**
 * The worksheet the report is written into. openpyxl addresses a cell by its
 * column label and one-based row ("B7"); since labels and column indexes are
 * in one-to-one correspondence (ColumnCodec.DecodeLabel, LabelOfDecode), the
 * model keys cells by (zero-based column index, one-based row) directly. A key
 * that is absent is an empty cell, whose value openpyxl reads as None.
 */
module Sheets {

  datatype Option<+T> = None | Some(value: T)

  /** What the report stores in a cell: header strings and numbers. */
  datatype Cell = Text(text: string) | Number(value: real)

  type Cells = map<(nat, nat), Cell>

  /** The value of the cell at column `col`, row `row`; None when it is empty. */
  function Get(cells: Cells, col: nat, row: nat): Option<Cell> {
    if (col, row) in cells then Some(cells[(col, row)]) else None
  }

  /** A worksheet whose cells the report writer fills in place. */
  class Worksheet {
    var cells: Cells

    constructor ()
      ensures cells == map[]
    {
      cells := map[];
    }
  }
}
