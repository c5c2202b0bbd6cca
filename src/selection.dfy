/**
 * The sidebar facets and the row filter: the fabric and colour options are
 * the distinct values of the whole table, the multiselects start either
 * with every option or with none, and the table is cut down to the rows
 * whose fabric and colour are both selected.
 */
module Selection {
  import opened Records
  import opened Sequences

  /** `df["Tecido"].unique()`: every fabric of the whole table once, in order of appearance. */
  function FabricOptions(rows: seq<Row>): (r: seq<string>)
    ensures Distinct(r)
    ensures forall f :: f in r <==> exists i :: 0 <= i < |rows| && rows[i].fabric == f
  {
    var fs := Fabrics(rows);
    assert forall f :: f in fs <==> exists i :: 0 <= i < |rows| && rows[i].fabric == f by {
      forall f | f in fs ensures exists i :: 0 <= i < |rows| && rows[i].fabric == f {
        var i :| 0 <= i < |fs| && fs[i] == f;
      }
    }
    Unique(fs)
  }

  /** `df["Cor"].unique()`: every colour of the whole table once, in order of appearance. */
  function ColourOptions(rows: seq<Row>): (r: seq<string>)
    ensures Distinct(r)
    ensures forall c :: c in r <==> exists i :: 0 <= i < |rows| && rows[i].colour == c
  {
    var cs := Colours(rows);
    assert forall c :: c in cs <==> exists i :: 0 <= i < |rows| && rows[i].colour == c by {
      forall c | c in cs ensures exists i :: 0 <= i < |rows| && rows[i].colour == c {
        var i :| 0 <= i < |cs| && cs[i] == c;
      }
    }
    Unique(cs)
  }

  /** The multiselect's initial value: every option when "select all" is ticked, none otherwise. */
  function DefaultChoice(selectAll: bool, options: seq<string>): (r: seq<string>)
    ensures selectAll ==> r == options
    ensures !selectAll ==> r == []
  {
    if selectAll then options else []
  }

  /** The state of a multiselect: left at its default, or set by the user. */
  datatype Widget = Untouched | Picked(values: seq<string>)

  /** What a multiselect hands to the script. */
  function Choice(w: Widget, default: seq<string>): (r: seq<string>)
    ensures w.Untouched? ==> r == default
    ensures w.Picked? ==> r == w.values
  {
    match w
    case Untouched => default
    case Picked(vs) => vs
  }

  predicate Selected(r: Row, fabrics: seq<string>, colours: seq<string>) {
    r.fabric in fabrics && r.colour in colours
  }

  /**
   * `df.query("Tecido in @tecido and Cor in @cor")`: the rows whose fabric
   * and colour are both selected, in their original order.
   */
  function Filter(rows: seq<Row>, fabrics: seq<string>, colours: seq<string>): (r: seq<Row>)
    ensures |r| <= |rows|
    ensures forall x :: x in r <==> x in rows && Selected(x, fabrics, colours)
  {
    if rows == [] then []
    else
      var rest := Filter(rows[1..], fabrics, colours);
      assert forall x :: x in rows <==> x == rows[0] || x in rows[1..];
      (if Selected(rows[0], fabrics, colours) then [rows[0]] else []) + rest
  }

  /** The filter keeps order: filtering a concatenation concatenates the filtered parts. */
  lemma {:induction false} FilterAppend(a: seq<Row>, b: seq<Row>, fabrics: seq<string>, colours: seq<string>)
    ensures Filter(a + b, fabrics, colours) == Filter(a, fabrics, colours) + Filter(b, fabrics, colours)
  {
    if a == [] {
      assert a + b == b;
    } else {
      assert (a + b)[1..] == a[1..] + b;
      FilterAppend(a[1..], b, fabrics, colours);
    }
  }

  /** A table all of whose rows are selected passes unchanged. */
  lemma {:induction false} FilterKeepsAll(rows: seq<Row>, fabrics: seq<string>, colours: seq<string>)
    requires forall i :: 0 <= i < |rows| ==> Selected(rows[i], fabrics, colours)
    ensures Filter(rows, fabrics, colours) == rows
  {
    if rows != [] {
      FilterKeepsAll(rows[1..], fabrics, colours);
    }
  }

  /** An empty selection on either facet gives an empty table, not an error. */
  lemma FilterEmptyChoice(rows: seq<Row>, fabrics: seq<string>, colours: seq<string>)
    requires fabrics == [] || colours == []
    ensures Filter(rows, fabrics, colours) == []
  {
  }

  /** With both "select all" boxes ticked and the widgets untouched, every row is shown. */
  lemma DefaultShowsAll(rows: seq<Row>)
    ensures Filter(rows, Choice(Untouched, DefaultChoice(true, FabricOptions(rows))),
                   Choice(Untouched, DefaultChoice(true, ColourOptions(rows)))) == rows
  {
    FilterKeepsAll(rows, FabricOptions(rows), ColourOptions(rows));
  }

  /** With either box unticked and the widgets untouched, no row is shown. */
  lemma UntickedShowsNothing(rows: seq<Row>, selectAllFabric: bool, selectAllColour: bool)
    requires !selectAllFabric || !selectAllColour
    ensures Filter(rows, Choice(Untouched, DefaultChoice(selectAllFabric, FabricOptions(rows))),
                   Choice(Untouched, DefaultChoice(selectAllColour, ColourOptions(rows)))) == []
  {
    FilterEmptyChoice(rows, DefaultChoice(selectAllFabric, FabricOptions(rows)),
                      DefaultChoice(selectAllColour, ColourOptions(rows)));
  }
}
