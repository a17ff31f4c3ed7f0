/** The two stateful objects of the characterisation driver: the single
    JEDI row that is filled in field by field and never reset, and the
    catalog file that receives the header and the blank row once, then one
    row per event. */
module Catalog {
  import opened Common
  import opened Schema

  /** Values of the row, keyed by column. */
  type RowValues = map<Column, Cell>

  /** Every column of the schema holds a value. */
  predicate Covers(values: RowValues, columns: seq<Column>)
  {
    forall c :: c in columns ==> c in values
  }

  /** A freshly built row: every column NaN. */
  function Blank(columns: seq<Column>): (m: RowValues)
    ensures Covers(m, columns)
    ensures forall c :: c in m ==> c in columns && m[c] == Missing
  {
    map c | c in columns :: Missing
  }

  /** The cells of a row in column order, as one CSV line writes them. */
  function Cells(values: RowValues, columns: seq<Column>): (cells: seq<Cell>)
    requires Covers(values, columns)
    ensures |cells| == |columns|
    ensures forall k :: 0 <= k < |columns| ==> cells[k] == values[columns[k]]
  {
    seq(|columns|, k requires 0 <= k < |columns| => values[columns[k]])
  }

  /** `jedi_row`: one row of the JEDI catalog, created once with every
      column NaN and then updated in place. */
  class JediRow {
    const columns: seq<Column>
    var values: RowValues

    ghost predicate Valid()
      reads this
    {
      Covers(values, columns)
    }

    constructor (channels: seq<string>)
      ensures columns == Columns(channels)
      ensures values == Blank(columns)
      ensures Valid()
    {
      columns := Columns(channels);
      values := Blank(Columns(channels));
    }

    /** `jedi_row[column] = value`. */
    method Set(column: Column, cell: Cell)
      modifies this
      ensures values == old(values)[column := cell]
      ensures old(Valid()) ==> Valid()
    {
      values := values[column := cell];
    }
  }

  /** The catalog CSV: the header and the row's line written at creation,
      then the appended lines. */
  class CatalogFile {
    const header: seq<string>
    const first: seq<Cell>
    var rows: seq<seq<Cell>>

    /** Every data line of the file, in order. */
    function Lines(): seq<seq<Cell>>
      reads this
    {
      [first] + rows
    }

    /** `jedi_row.to_csv(..., header=True, mode='w')`: the header line and
        then the row's one line of cells. */
    constructor (header: seq<string>, row: JediRow)
      requires row.Valid()
      ensures this.header == header && Lines() == [Cells(row.values, row.columns)]
      ensures first == Cells(row.values, row.columns) && rows == []
    {
      this.header := header;
      first := Cells(row.values, row.columns);
      rows := [];
    }

    /** `jedi_row.to_csv(..., header=False, mode='a')`. */
    method Append(row: JediRow)
      requires row.Valid()
      modifies this
      ensures rows == old(rows) + [Cells(row.values, row.columns)]
      ensures Lines() == old(Lines()) + [Cells(row.values, row.columns)]
    {
      rows := rows + [Cells(row.values, row.columns)];
    }
  }
}
