/**
 * The per-fabric section of the dashboard: for every fabric of the whole
 * table, in order of appearance, a block over the selected rows of that
 * fabric, with its colours out of stock and its per-colour stock lines.
 * A fabric with no selected row gets no block.
 */
module FabricBlocks {
  import opened Wrappers
  import opened Records
  import opened Sequences
  import opened Ordering
  import opened Grouping
  import opened Stock

  /** One point of the per-colour line chart. */
  datatype ColourLine = ColourLine(colour: string, totalUnits: real, unitsMoved: real, stock: real)

  /** What one fabric's block shows: its rows (bar, pie and area charts), the shortage list and the line chart. */
  datatype Block = Block(fabric: string, rows: seq<StockRow>, outOfStock: seq<string>, lines: seq<ColourLine>)

  /** Some row has fabric f. */
  predicate HasFabric(rows: seq<StockRow>, f: string) {
    exists x :: x in rows && x.row.fabric == f
  }

  /** `df_selection[df_selection["Tecido"] == f]`: the rows of fabric f, in their order. */
  function OfFabric(rows: seq<StockRow>, f: string): (r: seq<StockRow>)
    ensures |r| <= |rows|
    ensures forall x :: x in r <==> x in rows && x.row.fabric == f
  {
    if rows == [] then []
    else (if rows[0].row.fabric == f then [rows[0]] else []) + OfFabric(rows[1..], f)
  }

  /**
   * The selection keeps row order and repeated rows: selecting from two
   * tables one after the other is selecting from the concatenation.
   */
  lemma {:induction false} OfFabricAppend(a: seq<StockRow>, b: seq<StockRow>, f: string)
    ensures OfFabric(a + b, f) == OfFabric(a, f) + OfFabric(b, f)
  {
    if a != [] {
      assert (a + b)[1..] == a[1..] + b;
      OfFabricAppend(a[1..], b, f);
    } else {
      assert a + b == b;
    }
  }

  /** Some row of colour c has no stock left. */
  predicate ShortOf(rows: seq<StockRow>, c: string) {
    exists x :: x in rows && x.row.colour == c && x.stock <= 0.0
  }

  /** The colour of every row whose stock is at most zero, in row order (repeats kept). */
  function ShortColours(rows: seq<StockRow>): (r: seq<string>)
    ensures forall c :: c in r <==> ShortOf(rows, c)
  {
    if rows == [] then []
    else
      assert forall x :: x in rows <==> x == rows[0] || x in rows[1..];
      (if rows[0].stock <= 0.0 then [rows[0].row.colour] else []) + ShortColours(rows[1..])
  }

  /**
   * `df_tecido[df_tecido["Estoque_disponivel"] <= 0]["Cor"].unique()`: each
   * colour that has a row with no stock left, once, in order of appearance.
   */
  function OutOfStock(rows: seq<StockRow>): (r: seq<string>)
    ensures Distinct(r)
    ensures forall c :: c in r <==> ShortOf(rows, c)
  {
    Unique(ShortColours(rows))
  }

  function LineColours(ls: seq<ColourLine>): (r: seq<string>)
    ensures |r| == |ls| && forall i :: 0 <= i < |ls| ==> r[i] == ls[i].colour
  {
    seq(|ls|, i requires 0 <= i < |ls| => ls[i].colour)
  }

  /**
   * `groupby("Cor")[["Total_unidades", "Unidades_kg", "Estoque_disponivel"]].sum()`:
   * one line per colour present, colours ascending, each with the three
   * column sums over that colour's rows.
   */
  function Lines(rows: seq<StockRow>): (r: seq<ColourLine>)
    ensures Increasing(LineColours(r), StrLess) && Distinct(LineColours(r))
    ensures forall c :: c in LineColours(r) <==> c in ColourColumn(rows)
    ensures forall i :: 0 <= i < |r| ==>
              && r[i].totalUnits == SumWhere(ColourColumn(rows), TotalColumn(rows), r[i].colour)
              && r[i].unitsMoved == SumWhere(ColourColumn(rows), MovedColumn(rows), r[i].colour)
              && r[i].stock == SumWhere(ColourColumn(rows), StockColumn(rows), r[i].colour)
  {
    StrLessOrder();
    var cs := ColourColumn(rows);
    var ks := SortedKeys(cs, StrLess);
    var r := seq(|ks|, i requires 0 <= i < |ks| =>
      ColourLine(ks[i], SumWhere(cs, TotalColumn(rows), ks[i]),
                 SumWhere(cs, MovedColumn(rows), ks[i]), SumWhere(cs, StockColumn(rows), ks[i])));
    assert LineColours(r) == ks;
    r
  }

  /** On rows that carry their own stock, each colour's line has stock = units stocked - quantity moved. */
  lemma LinesBalance(rows: seq<StockRow>)
    requires StockConsistent(rows)
    ensures forall l :: l in Lines(rows) ==> l.stock == l.totalUnits - l.unitsMoved
  {
    StockColumnDifference(rows);
    forall l | l in Lines(rows) ensures l.stock == l.totalUnits - l.unitsMoved {
      var i :| 0 <= i < |Lines(rows)| && Lines(rows)[i] == l;
      SumWhereDifference(ColourColumn(rows), TotalColumn(rows), MovedColumn(rows), StockColumn(rows), l.colour);
    }
  }

  /**
   * `exibir_graficos_interativos(f)`: nothing when no selected row has
   * fabric f; otherwise the block over those rows, with the stock column
   * computed again before the shortage list and the line chart.
   */
  function BlockFor(sel: seq<StockRow>, f: string): (b: Option<Block>)
    ensures b.None? <==> !HasFabric(sel, f)
    ensures b.Some? ==> b.value.fabric == f && b.value.rows == OfFabric(sel, f) && b.value.rows != []
    ensures b.Some? ==> forall c :: c in b.value.outOfStock <==>
              exists x :: x in sel && x.row.fabric == f && x.row.colour == c && Available(x.row) <= 0.0
    ensures b.Some? ==> Distinct(b.value.outOfStock)
    ensures b.Some? ==> b.value.lines == Lines(Restock(OfFabric(sel, f)))
    ensures b.Some? ==> forall l :: l in b.value.lines ==> l.stock == l.totalUnits - l.unitsMoved
  {
    var sub := OfFabric(sel, f);
    if sub == [] then
      None
    else
      var t := Restock(sub);
      RestockShort(sub);
      LinesBalance(t);
      Some(Block(f, sub, OutOfStock(t), Lines(t)))
  }

  /** The recomputed stock marks a colour short exactly when one of its rows has no stock left. */
  lemma RestockShort(rows: seq<StockRow>)
    ensures forall c :: ShortOf(Restock(rows), c) <==>
                        exists x :: x in rows && x.row.colour == c && Available(x.row) <= 0.0
  {
    var t := Restock(rows);
    forall c ensures ShortOf(t, c) <==> exists x :: x in rows && x.row.colour == c && Available(x.row) <= 0.0
    {
      if x :| x in t && x.row.colour == c && x.stock <= 0.0 {
        var i :| 0 <= i < |t| && t[i] == x;
        assert rows[i] in rows && rows[i].row.colour == c;
      }
      if x :| x in rows && x.row.colour == c && Available(x.row) <= 0.0 {
        var i :| 0 <= i < |rows| && rows[i] == x;
        assert t[i] in t && t[i].row.colour == c;
      }
    }
  }

  function FabricsOf(bs: seq<Block>): (r: seq<string>)
    ensures |r| == |bs| && forall i :: 0 <= i < |bs| ==> r[i] == bs[i].fabric
  {
    seq(|bs|, i requires 0 <= i < |bs| => bs[i].fabric)
  }

  /** The blocks of the fabrics in `options`, in that order, skipping fabrics with no selected row. */
  function Blocks(options: seq<string>, sel: seq<StockRow>): (r: seq<Block>)
    ensures |r| <= |options|
    ensures forall b :: b in r ==> b.fabric in options && b.rows != [] && b.rows == OfFabric(sel, b.fabric)
    ensures forall b :: b in r ==> BlockFor(sel, b.fabric) == Some(b)
  {
    if options == [] then []
    else
      var f := options[|options| - 1];
      var b := BlockFor(sel, f);
      var rest := Blocks(options[..|options| - 1], sel);
      assert forall g :: g in rest ==> g.fabric in options;
      rest + (if b.Some? then [b.value] else [])
  }

  /** The last option adds its block, if any, after the blocks of the others. */
  lemma BlocksStep(options: seq<string>, sel: seq<StockRow>)
    requires options != []
    ensures var f := options[|options| - 1];
      FabricsOf(Blocks(options, sel)) ==
        FabricsOf(Blocks(options[..|options| - 1], sel)) + (if BlockFor(sel, f).Some? then [f] else [])
  {
    var f := options[|options| - 1];
    var b := BlockFor(sel, f);
    var rest := Blocks(options[..|options| - 1], sel);
    var bs := if b.Some? then [b.value] else [];
    assert Blocks(options, sel) == rest + bs;
    FabricsOfAppend(rest, bs);
    if b.Some? {
      assert FabricsOf(bs) == [f];
    } else {
      assert FabricsOf(bs) == [];
    }
  }

  lemma FabricsOfAppend(a: seq<Block>, b: seq<Block>)
    ensures FabricsOf(a + b) == FabricsOf(a) + FabricsOf(b)
  {
    assert |FabricsOf(a + b)| == |FabricsOf(a) + FabricsOf(b)|;
    forall i | 0 <= i < |a| + |b| ensures FabricsOf(a + b)[i] == (FabricsOf(a) + FabricsOf(b))[i] {
      if i < |a| {
        assert (a + b)[i] == a[i];
      } else {
        assert (a + b)[i] == b[i - |a|];
      }
    }
  }

  /** A fabric gets a block exactly when it is one of the options and some selected row has it. */
  lemma {:induction false} BlocksCover(options: seq<string>, sel: seq<StockRow>)
    ensures forall f :: f in FabricsOf(Blocks(options, sel)) <==> f in options && HasFabric(sel, f)
  {
    if options != [] {
      var init := options[..|options| - 1];
      var last := options[|options| - 1];
      BlocksCover(init, sel);
      BlocksStep(options, sel);
      assert options == init + [last];
      forall f ensures f in FabricsOf(Blocks(options, sel)) <==> f in options && HasFabric(sel, f) {
        assert f in options <==> f in init || f == last;
      }
    }
  }

  /** With distinct options, no fabric gets two blocks. */
  lemma {:induction false} BlocksDistinct(options: seq<string>, sel: seq<StockRow>)
    requires Distinct(options)
    ensures Distinct(FabricsOf(Blocks(options, sel)))
  {
    if options != [] {
      var init := options[..|options| - 1];
      var f := options[|options| - 1];
      BlocksDistinct(init, sel);
      BlocksCover(init, sel);
      BlocksStep(options, sel);
      assert options == init + [f];
      assert f !in init;
    }
  }

  /** Every selected row whose fabric is an option appears in that fabric's block. */
  lemma BlocksHoldRows(options: seq<string>, sel: seq<StockRow>, x: StockRow)
    requires x in sel && x.row.fabric in options
    ensures exists b :: b in Blocks(options, sel) && b.fabric == x.row.fabric && x in b.rows
  {
    BlocksCover(options, sel);
    var fs := FabricsOf(Blocks(options, sel));
    var i :| 0 <= i < |fs| && fs[i] == x.row.fabric;
    assert Blocks(options, sel)[i] in Blocks(options, sel);
  }

  /**
   * `for tecido_tipo in df["Tecido"].unique(): exibir_graficos_interativos(tecido_tipo)`:
   * renders the blocks one fabric at a time.
   */
  method RenderFabricBlocks(options: seq<string>, sel: seq<StockRow>) returns (blocks: seq<Block>)
    ensures blocks == Blocks(options, sel)
  {
    blocks := [];
    for i := 0 to |options|
      invariant blocks == Blocks(options[..i], sel)
    {
      assert options[..i + 1][..i] == options[..i];
      var b := BlockFor(sel, options[i]);
      if b.Some? {
        blocks := blocks + [b.value];
      }
    }
    assert options[..|options|] == options;
  }
}
