/**
 * The rows of the store's sheet: its columns Tecido (fabric), Cor (colour),
 * Total_unidades (units stocked), Unidades_kg (quantity moved),
 * Preço_unitario (unit price) and Faturamento_total (revenue).
 */
module Records {
  import opened Wrappers

  /** A revenue cell: text such as "R$ 10,00", or a value the sheet already stores as a number. */
  datatype Cell = Text(text: string) | Number(value: real)

  /** A row as read from the sheet; an empty Tecido cell is `None`. */
  datatype RawRow = RawRow(
    fabric: Option<string>,
    colour: string,
    totalUnits: real,
    unitsMoved: real,
    unitPrice: real,
    revenue: Cell)

  /** A cleaned row: the fabric filled in and the revenue a number. */
  datatype Row = Row(
    fabric: string,
    colour: string,
    totalUnits: real,
    unitsMoved: real,
    unitPrice: real,
    revenue: real)

  /** A row of the filtered table together with its derived Estoque_disponivel column. */
  datatype StockRow = StockRow(row: Row, stock: real)

  /** The Tecido column of a table. */
  function Fabrics(rows: seq<Row>): (r: seq<string>)
    ensures |r| == |rows| && forall i :: 0 <= i < |rows| ==> r[i] == rows[i].fabric
  {
    seq(|rows|, i requires 0 <= i < |rows| => rows[i].fabric)
  }

  /** The Cor column of a table. */
  function Colours(rows: seq<Row>): (r: seq<string>)
    ensures |r| == |rows| && forall i :: 0 <= i < |rows| ==> r[i] == rows[i].colour
  {
    seq(|rows|, i requires 0 <= i < |rows| => rows[i].colour)
  }
}
