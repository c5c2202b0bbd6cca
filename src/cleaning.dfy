/**
 * The cleaning steps run on the freshly read table: missing fabrics are
 * filled with "Desconhecido", the revenue text is rewritten, and the
 * revenue column is converted to numbers (pandas' `astype(float)`).
 */
module Cleaning {
  import opened Wrappers
  import opened Records
  import Revenue

  /** The value written into empty Tecido cells ("unknown"). */
  const Unknown: string := "Desconhecido"

  predicate NoMissingFabric(rows: seq<RawRow>) {
    forall i :: 0 <= i < |rows| ==> rows[i].fabric.Some?
  }

  /**
   * `fillna("Desconhecido")` on the Tecido column: exactly the missing
   * fabrics are replaced; every other row, and the number of rows, stay.
   */
  function FillMissingFabric(rows: seq<RawRow>): (r: seq<RawRow>)
    ensures |r| == |rows| && NoMissingFabric(r)
    ensures forall i :: 0 <= i < |rows| && rows[i].fabric.Some? ==> r[i] == rows[i]
    ensures forall i :: 0 <= i < |rows| && rows[i].fabric.None? ==>
              r[i] == rows[i].(fabric := Some(Unknown))
  {
    seq(|rows|, i requires 0 <= i < |rows| =>
      if rows[i].fabric.None? then rows[i].(fabric := Some(Unknown)) else rows[i])
  }

  /** Filling a table that has no missing fabric changes nothing; so filling twice is filling once. */
  lemma FillIdempotent(rows: seq<RawRow>)
    ensures NoMissingFabric(rows) ==> FillMissingFabric(rows) == rows
    ensures FillMissingFabric(FillMissingFabric(rows)) == FillMissingFabric(rows)
  {
  }

  /**
   * The two regular-expression replacements on one cell. pandas applies
   * them to text cells only; a cell that already holds a number is kept.
   */
  function RewriteCell(c: Cell): (r: Cell)
    ensures r.Text? <==> c.Text?
    ensures r.Text? ==> ',' !in r.text
    ensures c.Number? ==> r == c
  {
    match c
    case Text(s) => Text(Revenue.RewriteRevenue(s))
    case Number(_) => c
  }

  /** The revenue column rewritten, every other column untouched. */
  function RewriteRevenueColumn(rows: seq<RawRow>): (r: seq<RawRow>)
    ensures |r| == |rows|
    ensures forall i :: 0 <= i < |rows| ==> r[i] == rows[i].(revenue := RewriteCell(rows[i].revenue))
  {
    seq(|rows|, i requires 0 <= i < |rows| => rows[i].(revenue := RewriteCell(rows[i].revenue)))
  }

  /** `float()` on one cell: numbers stay, text is parsed (and may fail). */
  function CellValue(c: Cell): (r: Option<real>)
    ensures c.Number? ==> r == Some(c.value)
  {
    match c
    case Number(v) => Some(v)
    case Text(s) => Revenue.ParseNumber(s)
  }

  /** The typed row for a raw row whose fabric is filled, with revenue `v`. */
  function Typed(r: RawRow, v: real): (t: Row)
    requires r.fabric.Some?
  {
    Row(r.fabric.value, r.colour, r.totalUnits, r.unitsMoved, r.unitPrice, v)
  }

  /**
   * The conversion over the column, given each cell's converted value: it
   * runs in order and stops at the first cell that is no number, reporting
   * that cell's text.
   */
  function ConvertAll(rows: seq<RawRow>, values: seq<Option<real>>): (r: Result<seq<Row>, string>)
    requires NoMissingFabric(rows) && |values| == |rows|
    requires forall i :: 0 <= i < |rows| && values[i].None? ==> rows[i].revenue.Text?
    ensures r.Success? <==> forall i :: 0 <= i < |rows| ==> values[i].Some?
    ensures r.Success? ==> |r.value| == |rows|
    ensures r.Success? ==> forall i :: 0 <= i < |rows| ==> r.value[i] == Typed(rows[i], values[i].value)
    ensures r.Failure? ==>
              exists i :: (0 <= i < |rows| && rows[i].revenue == Text(r.error) && values[i].None?
                           && forall j :: 0 <= j < i ==> values[j].Some?)
  {
    if rows == [] then Success([])
    else
      match values[0]
      case None => Failure(rows[0].revenue.text)
      case Some(v) =>
        match ConvertAll(rows[1..], values[1..])
        case Failure(e) =>
          ghost var i :| 0 <= i < |rows| - 1 && rows[1..][i].revenue == Text(e) && values[1..][i].None?
            && forall j :: 0 <= j < i ==> values[1..][j].Some?;
          assert forall j :: 1 <= j < i + 1 ==> values[j] == values[1..][j - 1];
          assert rows[i + 1] == rows[1..][i] && values[i + 1] == values[1..][i];
          Failure(e)
        case Success(t) =>
          assert forall i :: 1 <= i < |rows| ==> rows[i] == rows[1..][i - 1] && values[i] == values[1..][i - 1];
          Success([Typed(rows[0], v)] + t)
  }

  /**
   * `astype(float)` on the revenue column: every cell converted, or an
   * error naming the text of the first cell that is no number; nothing is
   * coerced to zero.
   */
  function ToFloat(rows: seq<RawRow>): (r: Result<seq<Row>, string>)
    requires NoMissingFabric(rows)
    ensures r.Success? <==> forall i :: 0 <= i < |rows| ==> CellValue(rows[i].revenue).Some?
    ensures r.Success? ==> |r.value| == |rows|
    ensures r.Success? ==> forall i :: 0 <= i < |rows| ==>
              r.value[i] == Typed(rows[i], CellValue(rows[i].revenue).value)
    ensures r.Failure? ==>
              exists i :: (0 <= i < |rows| && rows[i].revenue == Text(r.error)
                           && CellValue(rows[i].revenue).None?
                           && forall j :: 0 <= j < i ==> CellValue(rows[j].revenue).Some?)
  {
    var values := seq(|rows|, i requires 0 <= i < |rows| => CellValue(rows[i].revenue));
    var r := ConvertAll(rows, values);
    if r.Failure? then
      ghost var i :| 0 <= i < |rows| && rows[i].revenue == Text(r.error) && values[i].None?
        && forall j :: 0 <= j < i ==> values[j].Some?;
      assert CellValue(rows[i].revenue).None?;
      assert forall j :: 0 <= j < i ==> values[j] == CellValue(rows[j].revenue);
      assert forall j :: 0 <= j < i ==> CellValue(rows[j].revenue).Some?;
      r
    else r
  }

  /** A revenue cell after the rewrite and the conversion. */
  function CleanCell(c: Cell): (r: Option<real>) {
    CellValue(RewriteCell(c))
  }

  /**
   * The three cleaning steps in the script's order. The table is accepted
   * exactly when every revenue cell converts; the cleaned rows are the raw
   * rows with fabric filled and revenue converted, in the same order.
   */
  function Clean(raw: seq<RawRow>): (r: Result<seq<Row>, string>)
    ensures r.Success? <==> forall i :: 0 <= i < |raw| ==> CleanCell(raw[i].revenue).Some?
    ensures r.Success? ==> |r.value| == |raw| && forall i :: 0 <= i < |raw| ==>
              r.value[i] == Row(raw[i].fabric.GetOr(Unknown), raw[i].colour, raw[i].totalUnits,
                                raw[i].unitsMoved, raw[i].unitPrice, CleanCell(raw[i].revenue).value)
    ensures r.Failure? ==>
              exists i :: (0 <= i < |raw| && CleanCell(raw[i].revenue).None?
                           && RewriteCell(raw[i].revenue) == Text(r.error)
                           && forall j :: 0 <= j < i ==> CleanCell(raw[j].revenue).Some?)
  {
    var filled := FillMissingFabric(raw);
    var rewritten := RewriteRevenueColumn(filled);
    assert forall i :: 0 <= i < |raw| ==> rewritten[i].revenue == RewriteCell(raw[i].revenue);
    assert forall i :: 0 <= i < |raw| ==> CellValue(rewritten[i].revenue) == CleanCell(raw[i].revenue);
    ToFloat(rewritten)
  }

  /** A cell written "R$ <reais>,<centavos>" cleans to that amount; a numeric cell keeps its value. */
  lemma CleanCellValues(reais: nat, centavos: nat, v: real)
    requires centavos < 100
    ensures CleanCell(Text(Revenue.Brl(reais, centavos))) == Some(reais as real + centavos as real / 100.0)
    ensures CleanCell(Number(v)) == Some(v)
  {
    Revenue.BrlRoundTrip(reais, centavos);
  }
}
