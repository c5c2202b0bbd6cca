/**
 * What the tables look like when the rows all share one colour, and a
 * worked example: one fabric, one colour, two rows, one of them oversold.
 */
module Scenarios {
  import opened Records
  import opened Sequences
  import opened Grouping
  import opened Stock
  import opened Aggregates
  import opened FabricBlocks

  predicate AllOfColour(rows: seq<StockRow>, c: string) {
    forall x :: x in rows ==> x.row.colour == c
  }

  lemma ColourColumnConstant(rows: seq<StockRow>, c: string)
    requires AllOfColour(rows, c)
    ensures forall i :: 0 <= i < |rows| ==> ColourColumn(rows)[i] == c
  {
    forall i | 0 <= i < |rows| ensures ColourColumn(rows)[i] == c {
      assert rows[i] in rows;
    }
  }

  /** Rows of a single colour give a single revenue entry holding all the revenue. */
  lemma SingleColourRevenue(rows: seq<StockRow>, c: string)
    requires rows != [] && AllOfColour(rows, c)
    ensures RevenueByColour(rows) == [Group(c, Sum(RevenueColumn(rows)))]
  {
    var r := RevenueByColour(rows);
    ColourColumnConstant(rows, c);
    assert ColourColumn(rows)[0] == c;
    OnlyElement(KeysOf(r), c);
    SumWhereAll(ColourColumn(rows), RevenueColumn(rows), c);
    assert r[0] == Group(c, Sum(RevenueColumn(rows)));
  }

  /** Rows of a single colour give a single line, holding the three column sums. */
  lemma SingleColourLines(rows: seq<StockRow>, c: string)
    requires rows != [] && AllOfColour(rows, c)
    ensures Lines(rows) ==
      [ColourLine(c, Sum(TotalColumn(rows)), Sum(MovedColumn(rows)), Sum(StockColumn(rows)))]
  {
    var r := Lines(rows);
    ColourColumnConstant(rows, c);
    assert ColourColumn(rows)[0] == c;
    OnlyElement(LineColours(r), c);
    SumWhereAll(ColourColumn(rows), TotalColumn(rows), c);
    SumWhereAll(ColourColumn(rows), MovedColumn(rows), c);
    SumWhereAll(ColourColumn(rows), StockColumn(rows), c);
  }

  /** Rows of a single colour, one of them out of stock, list that colour alone. */
  lemma SingleColourShort(rows: seq<StockRow>, c: string)
    requires AllOfColour(rows, c) && ShortOf(rows, c)
    ensures OutOfStock(rows) == [c]
  {
    OnlyElement(OutOfStock(rows), c);
  }

  /** The two rows of the worked example: same fabric and colour, the second one oversold. */
  function TwoRows(f: string, c: string, p: real): (rows: seq<StockRow>)
    ensures |rows| == 2 && AllOfColour(rows, c)
    ensures rows[0].stock == 70.0 && rows[1].stock == -20.0
  {
    var rows := WithStock([Row(f, c, 100.0, 30.0, p, 10.0), Row(f, c, 100.0, 120.0, p, 5.0)]);
    assert forall x :: x in rows ==> x == rows[0] || x == rows[1];
    rows
  }

  /** Colour c earns 10 + 5 in the revenue table. */
  lemma ScenarioRevenue(f: string, c: string, p: real)
    ensures RevenueByColour(TwoRows(f, c, p)) == [Group(c, 15.0)]
  {
    var sel := TwoRows(f, c, p);
    SingleColourRevenue(sel, c);
    assert RevenueColumn(sel) == [10.0, 5.0];
    assert Sum([10.0, 5.0]) == 15.0;
  }

  /**
   * Fabric f's block lists c as out of stock, because its second row is
   * oversold, although c's summed stock (200 - 150 = 50) is positive.
   */
  lemma ScenarioBlock(f: string, c: string, p: real)
    ensures var b := BlockFor(TwoRows(f, c, p), f);
      && b.Some?
      && b.value.outOfStock == [c]
      && b.value.lines == [ColourLine(c, 200.0, 150.0, 50.0)]
  {
    var sel := TwoRows(f, c, p);
    assert sel[0] in sel && sel[1] in sel;
    assert OfFabric(sel, f) == sel;
    RestockUnchanged(sel);
    SingleColourShort(sel, c);
    SingleColourLines(sel, c);
    assert TotalColumn(sel) == [100.0, 100.0];
    assert MovedColumn(sel) == [30.0, 120.0];
    assert StockColumn(sel) == [70.0, -20.0];
    assert Sum([100.0, 100.0]) == 200.0;
    assert Sum([30.0, 120.0]) == 150.0;
    assert Sum([70.0, -20.0]) == 50.0;
  }
}
