/**
 * The dashboard script from top to bottom: clean the sheet, offer the
 * facets, filter, add the stock column, compute the per-fabric charts,
 * render the fabric blocks and the revenue tables.
 */
module Dashboard {
  import opened Wrappers
  import opened Records
  import opened Sequences
  import opened Labels
  import opened Cleaning
  import opened Selection
  import opened Stock
  import opened Grouping
  import opened Aggregates
  import opened FabricBlocks

  /** Everything the page shows, as data. */
  datatype View = View(
    columns: seq<string>,
    fabricOptions: seq<string>,
    colourOptions: seq<string>,
    fabricChoice: seq<string>,
    colourChoice: seq<string>,
    selection: seq<StockRow>,
    stockByFabric: seq<Group<string>>,
    movedByFabric: seq<Group<string>>,
    blocks: seq<Block>,
    revenueByColour: seq<Group<string>>,
    grandTotal: real,
    revenueByColourFabric: seq<Group<(string, string)>>)

  /** Every row of the selection comes from the cleaned table, so its fabric is one of the options. */
  lemma SelectionOffered(df: seq<Row>, fabrics: seq<string>, colours: seq<string>)
    ensures forall x :: x in WithStock(Filter(df, fabrics, colours)) ==> x.row.fabric in FabricOptions(df)
  {
    var kept := Filter(df, fabrics, colours);
    var sel := WithStock(kept);
    forall x | x in sel ensures x.row.fabric in FabricOptions(df) {
      var i :| 0 <= i < |sel| && sel[i] == x;
      assert kept[i] in kept;
      var j :| 0 <= j < |df| && df[j] == kept[i];
    }
  }

  /**
   * One run of the script over a sheet with column headers `labels` and
   * rows `raw`, given the state of the two "select all" boxes and of the
   * two multiselects. It fails, with the offending revenue text, exactly
   * when the revenue column does not convert to numbers.
   */
  method RunDashboard(labels: seq<string>, raw: seq<RawRow>,
                      selectAllFabric: bool, fabricWidget: Widget,
                      selectAllColour: bool, colourWidget: Widget)
    returns (out: Result<View, string>)
    ensures out.Failure? <==> Clean(raw).Failure?
    ensures out.Failure? ==> out.error == Clean(raw).error
    ensures out.Success? ==>
      var df := Clean(raw).value;
      var v := out.value;
      && v.columns == NormalizeLabels(labels)
      && v.fabricOptions == FabricOptions(df)
      && v.colourOptions == ColourOptions(df)
      && v.fabricChoice == Choice(fabricWidget, DefaultChoice(selectAllFabric, v.fabricOptions))
      && v.colourChoice == Choice(colourWidget, DefaultChoice(selectAllColour, v.colourOptions))
      && v.selection == WithStock(Filter(df, v.fabricChoice, v.colourChoice))
      && v.stockByFabric == StockByFabric(v.selection)
      && v.movedByFabric == MovedByFabric(v.selection)
      && v.blocks == Blocks(v.fabricOptions, v.selection)
      && v.revenueByColour == RevenueByColour(v.selection)
      && v.grandTotal == Sum(RevenueColumn(v.selection))
      && v.revenueByColourFabric == RevenueByColourFabric(v.selection)
    ensures out.Success? ==>
      var v := out.value;
      && TotalOf(v.stockByFabric) == Sum(TotalColumn(v.selection)) - Sum(MovedColumn(v.selection))
      && Distinct(FabricsOf(v.blocks))
      && forall f :: f in FabricsOf(v.blocks) <==> HasFabric(v.selection, f)
  {
    var columns := NormalizeLabels(labels);
    var table := FillMissingFabric(raw);
    table := RewriteRevenueColumn(table);
    var converted := ToFloat(table);
    if converted.Failure? {
      return Failure(converted.error);
    }
    var df := converted.value;

    var fabricOptions := FabricOptions(df);
    var fabricChoice := Choice(fabricWidget, DefaultChoice(selectAllFabric, fabricOptions));
    var colourOptions := ColourOptions(df);
    var colourChoice := Choice(colourWidget, DefaultChoice(selectAllColour, colourOptions));
    var selection := WithStock(Filter(df, fabricChoice, colourChoice));

    var stockByFabric := StockByFabric(selection);
    var movedByFabric := MovedByFabric(selection);
    var blocks := RenderFabricBlocks(fabricOptions, selection);
    var revenueByColour := RevenueByColour(selection);
    var grandTotal := TotalOf(revenueByColour);
    var revenueByColourFabric := RevenueByColourFabric(selection);

    StockBalance(selection);
    BlocksCover(fabricOptions, selection);
    BlocksDistinct(fabricOptions, selection);
    SelectionOffered(df, fabricChoice, colourChoice);
    out := Success(View(columns, fabricOptions, colourOptions, fabricChoice, colourChoice, selection,
                        stockByFabric, movedByFabric, blocks, revenueByColour, grandTotal,
                        revenueByColourFabric));
  }
}
