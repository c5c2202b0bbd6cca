/**
 * The group-by tables of the dashboard, over the filtered table with its
 * stock column: stock and quantity moved per fabric, revenue per colour
 * (sorted by revenue, with its grand total) and revenue per colour and
 * fabric.
 */
module Aggregates {
  import opened Records
  import opened Sequences
  import opened Ordering
  import opened Grouping
  import opened Stock

  /** `groupby("Tecido")["Estoque_disponivel"].sum()`: available stock per fabric, fabrics ascending. */
  function StockByFabric(sel: seq<StockRow>): (r: seq<Group<string>>)
    ensures Increasing(KeysOf(r), StrLess) && Distinct(KeysOf(r))
    ensures forall f :: f in KeysOf(r) <==> f in FabricColumn(sel)
    ensures forall i :: 0 <= i < |r| ==> r[i].total == SumWhere(FabricColumn(sel), StockColumn(sel), r[i].key)
    ensures TotalOf(r) == Sum(StockColumn(sel))
  {
    StrLessOrder();
    GroupSumTotal(FabricColumn(sel), StockColumn(sel), StrLess);
    GroupSum(FabricColumn(sel), StockColumn(sel), StrLess)
  }

  /** `groupby("Tecido")["Unidades_kg"].sum()`: quantity moved per fabric, fabrics ascending. */
  function MovedByFabric(sel: seq<StockRow>): (r: seq<Group<string>>)
    ensures Increasing(KeysOf(r), StrLess) && Distinct(KeysOf(r))
    ensures forall f :: f in KeysOf(r) <==> f in FabricColumn(sel)
    ensures forall i :: 0 <= i < |r| ==> r[i].total == SumWhere(FabricColumn(sel), MovedColumn(sel), r[i].key)
    ensures TotalOf(r) == Sum(MovedColumn(sel))
  {
    StrLessOrder();
    GroupSumTotal(FabricColumn(sel), MovedColumn(sel), StrLess);
    GroupSum(FabricColumn(sel), MovedColumn(sel), StrLess)
  }

  /**
   * `groupby("Cor")["Faturamento_total"].sum().sort_values(ascending=True)`:
   * one entry per colour present, holding that colour's revenue, in
   * ascending order of revenue; together they add up to all the revenue.
   */
  function RevenueByColour(sel: seq<StockRow>): (r: seq<Group<string>>)
    ensures Ascending(r) && Distinct(KeysOf(r))
    ensures forall c :: c in KeysOf(r) <==> c in ColourColumn(sel)
    ensures forall i :: 0 <= i < |r| ==> r[i].total == SumWhere(ColourColumn(sel), RevenueColumn(sel), r[i].key)
    ensures TotalOf(r) == Sum(RevenueColumn(sel))
  {
    StrLessOrder();
    SortedSums(ColourColumn(sel), RevenueColumn(sel), StrLess);
    SortByTotal(GroupSum(ColourColumn(sel), RevenueColumn(sel), StrLess))
  }

  /** Sorting the group sums by total keeps one group per key, each with its key's sum. */
  lemma SortedSums<K(!new)>(keys: seq<K>, vals: seq<real>, lt: (K, K) -> bool)
    requires Total(lt) && |keys| == |vals|
    ensures var r := SortByTotal(GroupSum(keys, vals, lt));
      && Ascending(r) && Distinct(KeysOf(r))
      && (forall k :: k in KeysOf(r) <==> k in keys)
      && (forall i :: 0 <= i < |r| ==> r[i].total == SumWhere(keys, vals, r[i].key))
      && TotalOf(r) == Sum(vals)
  {
    var g := GroupSum(keys, vals, lt);
    GroupSumTotal(keys, vals, lt);
    var r := SortByTotal(g);
    PermutedGroups(g, r);
    forall i | 0 <= i < |r| ensures r[i].total == SumWhere(keys, vals, r[i].key) {
      assert r[i] in g;
      var j :| 0 <= j < |g| && g[j] == r[i];
    }
  }

  /** A permutation of groups has the same groups, so the same keys, each once. */
  lemma PermutedGroups<K>(g: seq<Group<K>>, r: seq<Group<K>>)
    requires multiset(r) == multiset(g) && Distinct(KeysOf(g))
    ensures Distinct(KeysOf(r))
    ensures forall k :: k in KeysOf(r) <==> k in KeysOf(g)
    ensures forall x :: x in r <==> x in g
  {
    assert forall x :: x in r <==> x in g by {
      forall x ensures x in r <==> x in g {
        assert x in r <==> x in multiset(r);
        assert x in g <==> x in multiset(g);
      }
    }
    forall k ensures k in KeysOf(r) <==> k in KeysOf(g) {
      if k in KeysOf(r) {
        var i :| 0 <= i < |r| && KeysOf(r)[i] == k;
        assert r[i] in g;
        var j :| 0 <= j < |g| && g[j] == r[i];
        assert KeysOf(g)[j] == k;
      }
      if k in KeysOf(g) {
        var j :| 0 <= j < |g| && KeysOf(g)[j] == k;
        assert g[j] in r;
        var i :| 0 <= i < |r| && r[i] == g[j];
        assert KeysOf(r)[i] == k;
      }
    }
    forall i, j | 0 <= i < j < |r| ensures KeysOf(r)[i] != KeysOf(r)[j] {
      DistinctKeysPermuted(g, r, i, j);
    }
  }

  lemma DistinctKeysPermuted<K>(g: seq<Group<K>>, r: seq<Group<K>>, i: int, j: int)
    requires multiset(r) == multiset(g) && Distinct(KeysOf(g))
    requires 0 <= i < j < |r|
    ensures r[i].key != r[j].key
  {
    if r[i].key == r[j].key {
      assert r[i] in multiset(g) && r[j] in multiset(g);
      var a :| 0 <= a < |g| && g[a] == r[i];
      var b :| 0 <= b < |g| && g[b] == r[j];
      assert KeysOf(g)[a] == KeysOf(g)[b];
      assert a == b;
      assert r[i] == r[j];
      assert multiset(r)[r[i]] >= 2 by {
        assert r == r[..i] + [r[i]] + r[i + 1..j] + [r[j]] + r[j + 1..];
      }
      OccursOnce(g, a);
    }
  }

  /** With distinct keys, each group occurs exactly once. */
  lemma OccursOnce<K>(g: seq<Group<K>>, a: int)
    requires Distinct(KeysOf(g)) && 0 <= a < |g|
    ensures multiset(g)[g[a]] == 1
  {
    assert g == g[..a] + [g[a]] + g[a + 1..];
    assert g[a] !in g[..a] by {
      forall b | 0 <= b < a ensures g[b] != g[a] {
        assert KeysOf(g)[b] != KeysOf(g)[a];
      }
    }
    assert g[a] !in g[a + 1..] by {
      forall b | a < b < |g| ensures g[b] != g[a] {
        assert KeysOf(g)[b] != KeysOf(g)[a];
      }
    }
  }

  /** The grand total shown under the revenue charts: the sum of the sorted per-colour table. */
  function GrandTotal(sel: seq<StockRow>): (t: real)
    ensures t == Sum(RevenueColumn(sel))
  {
    TotalOf(RevenueByColour(sel))
  }

  /** `groupby(["Cor", "Tecido"])["Faturamento_total"].sum()`: revenue per (colour, fabric), pairs ascending. */
  function RevenueByColourFabric(sel: seq<StockRow>): (r: seq<Group<(string, string)>>)
    ensures Increasing(KeysOf(r), PairLess) && Distinct(KeysOf(r))
    ensures forall k :: k in KeysOf(r) <==> k in ColourFabricColumn(sel)
    ensures forall i :: 0 <= i < |r| ==>
              r[i].total == SumWhere(ColourFabricColumn(sel), RevenueColumn(sel), r[i].key)
    ensures TotalOf(r) == Sum(RevenueColumn(sel))
  {
    PairLessOrder();
    GroupSumTotal(ColourFabricColumn(sel), RevenueColumn(sel), PairLess);
    GroupSum(ColourFabricColumn(sel), RevenueColumn(sel), PairLess)
  }

  /** Over the filtered table, the stock per fabric adds up to the units stocked minus the quantity moved. */
  lemma StockBalance(sel: seq<StockRow>)
    requires StockConsistent(sel)
    ensures TotalOf(StockByFabric(sel)) == Sum(TotalColumn(sel)) - Sum(MovedColumn(sel))
  {
    StockColumnDifference(sel);
    SumDifference(TotalColumn(sel), MovedColumn(sel), StockColumn(sel));
  }
}
