/**
 * The derived column Estoque_disponivel (available stock) and the columns
 * of the filtered table that the group-bys read.
 */
module Stock {
  import opened Records

  /** Units stocked minus quantity moved; not clamped, so negative when more moved than stocked. */
  function Available(r: Row): (a: real) {
    r.totalUnits - r.unitsMoved
  }

  /** Every row carries the stock computed from its own two columns. */
  predicate StockConsistent(rows: seq<StockRow>) {
    forall x :: x in rows ==> x.stock == Available(x.row)
  }

  /**
   * `df["Estoque_disponivel"] = df["Total_unidades"] - df["Unidades_kg"]`:
   * the same rows, in the same order, each with its stock added.
   */
  function WithStock(rows: seq<Row>): (r: seq<StockRow>)
    ensures |r| == |rows| && StockConsistent(r)
    ensures forall i :: 0 <= i < |rows| ==> r[i].row == rows[i]
  {
    seq(|rows|, i requires 0 <= i < |rows| => StockRow(rows[i], Available(rows[i])))
  }

  /** The table without its stock column. */
  function RowsOf(rows: seq<StockRow>): (r: seq<Row>)
    ensures |r| == |rows| && forall i :: 0 <= i < |rows| ==> r[i] == rows[i].row
  {
    seq(|rows|, i requires 0 <= i < |rows| => rows[i].row)
  }

  /** The stock column computed once more from the row's own columns. */
  function Restock(rows: seq<StockRow>): (r: seq<StockRow>)
    ensures |r| == |rows| && StockConsistent(r)
    ensures forall i :: 0 <= i < |rows| ==> r[i].row == rows[i].row
  {
    WithStock(RowsOf(rows))
  }

  /** Computing the column again over rows that already carry it changes nothing. */
  lemma RestockUnchanged(rows: seq<StockRow>)
    requires StockConsistent(rows)
    ensures Restock(rows) == rows
  {
    var r := Restock(rows);
    forall i | 0 <= i < |rows| ensures r[i] == rows[i] {
      assert rows[i] in rows && r[i] in r;
    }
  }

  function FabricColumn(rows: seq<StockRow>): (r: seq<string>)
    ensures |r| == |rows| && forall i :: 0 <= i < |rows| ==> r[i] == rows[i].row.fabric
  {
    Fabrics(RowsOf(rows))
  }

  function ColourColumn(rows: seq<StockRow>): (r: seq<string>)
    ensures |r| == |rows| && forall i :: 0 <= i < |rows| ==> r[i] == rows[i].row.colour
  {
    Colours(RowsOf(rows))
  }

  /** The (Cor, Tecido) key pairs. */
  function ColourFabricColumn(rows: seq<StockRow>): (r: seq<(string, string)>)
    ensures |r| == |rows|
    ensures forall i :: 0 <= i < |rows| ==> r[i] == (rows[i].row.colour, rows[i].row.fabric)
  {
    seq(|rows|, i requires 0 <= i < |rows| => (rows[i].row.colour, rows[i].row.fabric))
  }

  function TotalColumn(rows: seq<StockRow>): (r: seq<real>)
    ensures |r| == |rows| && forall i :: 0 <= i < |rows| ==> r[i] == rows[i].row.totalUnits
  {
    seq(|rows|, i requires 0 <= i < |rows| => rows[i].row.totalUnits)
  }

  function MovedColumn(rows: seq<StockRow>): (r: seq<real>)
    ensures |r| == |rows| && forall i :: 0 <= i < |rows| ==> r[i] == rows[i].row.unitsMoved
  {
    seq(|rows|, i requires 0 <= i < |rows| => rows[i].row.unitsMoved)
  }

  function StockColumn(rows: seq<StockRow>): (r: seq<real>)
    ensures |r| == |rows| && forall i :: 0 <= i < |rows| ==> r[i] == rows[i].stock
  {
    seq(|rows|, i requires 0 <= i < |rows| => rows[i].stock)
  }

  function RevenueColumn(rows: seq<StockRow>): (r: seq<real>)
    ensures |r| == |rows| && forall i :: 0 <= i < |rows| ==> r[i] == rows[i].row.revenue
  {
    seq(|rows|, i requires 0 <= i < |rows| => rows[i].row.revenue)
  }

  /** Where every row carries its own stock, the stock column is the total column minus the moved column. */
  lemma StockColumnDifference(rows: seq<StockRow>)
    requires StockConsistent(rows)
    ensures forall i :: 0 <= i < |rows| ==>
              StockColumn(rows)[i] == TotalColumn(rows)[i] - MovedColumn(rows)[i]
  {
    forall i | 0 <= i < |rows|
      ensures StockColumn(rows)[i] == TotalColumn(rows)[i] - MovedColumn(rows)[i]
    {
      assert rows[i] in rows;
    }
  }
}
