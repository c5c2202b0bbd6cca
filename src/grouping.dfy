/**
 * pandas' `groupby(key)[column].sum()` over a key column and a value
 * column of equal length, and the `sort_values` of the result by its sums.
 */
module Grouping {
  import opened Sequences
  import opened Ordering

  /** Inserts `k` into ascending distinct keys, unless it is already there. */
  function Insert<K(==,!new)>(k: K, ks: seq<K>, lt: (K, K) -> bool): (r: seq<K>)
    requires Total(lt) && Increasing(ks, lt) && Distinct(ks)
    ensures Increasing(r, lt) && Distinct(r)
    ensures forall x :: x in r <==> x == k || x in ks
    ensures r != [] && (r[0] == k || (ks != [] && r[0] == ks[0]))
  {
    if k in ks then ks
    else if ks == [] || lt(k, ks[0]) then [k] + ks
    else
      var rest := Insert(k, ks[1..], lt);
      assert lt(ks[0], k);
      assert |ks| > 1 ==> lt(ks[0], ks[1]) && ks[1..][0] == ks[1];
      assert lt(ks[0], rest[0]);
      assert ks[0] !in ks[1..];
      assert ks[0] !in rest;
      var r := [ks[0]] + rest;
      assert forall i :: 1 <= i < |r| ==> r[i] == rest[i - 1];
      r
  }

  /** The distinct keys in ascending order: the index of a group-by with `sort=True`. */
  function SortedKeys<K(==,!new)>(keys: seq<K>, lt: (K, K) -> bool): (r: seq<K>)
    requires Total(lt)
    ensures Increasing(r, lt) && Distinct(r)
    ensures forall x :: x in r <==> x in keys
  {
    if keys == [] then [] else Insert(keys[0], SortedKeys(keys[1..], lt), lt)
  }

  function Sum(vals: seq<real>): (t: real) {
    if vals == [] then 0.0 else vals[0] + Sum(vals[1..])
  }

  /** The sum of the values whose key is `k`: the reference a group's total is held to. */
  function SumWhere<K(==)>(keys: seq<K>, vals: seq<real>, k: K): (t: real)
    requires |keys| == |vals|
  {
    if keys == [] then 0.0
    else (if keys[0] == k then vals[0] else 0.0) + SumWhere(keys[1..], vals[1..], k)
  }

  /** One row of a group-by result: a key and the sum of its rows' values. */
  datatype Group<K> = Group(key: K, total: real)

  function KeysOf<K>(gs: seq<Group<K>>): (r: seq<K>)
    ensures |r| == |gs| && forall i :: 0 <= i < |gs| ==> r[i] == gs[i].key
  {
    seq(|gs|, i requires 0 <= i < |gs| => gs[i].key)
  }

  /** The sum of a group-by result's totals: pandas' `.sum()` on its value column. */
  function TotalOf<K>(gs: seq<Group<K>>): (t: real) {
    if gs == [] then 0.0 else gs[0].total + TotalOf(gs[1..])
  }

  /** One group for each of the keys `ks`, in that order. */
  function Aggregate<K(==)>(ks: seq<K>, keys: seq<K>, vals: seq<real>): (r: seq<Group<K>>)
    requires |keys| == |vals|
    ensures |r| == |ks|
    ensures forall i :: 0 <= i < |ks| ==> r[i] == Group(ks[i], SumWhere(keys, vals, ks[i]))
  {
    if ks == [] then [] else [Group(ks[0], SumWhere(keys, vals, ks[0]))] + Aggregate(ks[1..], keys, vals)
  }

  /**
   * `groupby(key)[value].sum()`: one group per distinct key present, in
   * ascending key order, each holding the sum of the values of its rows.
   */
  function GroupSum<K(==,!new)>(keys: seq<K>, vals: seq<real>, lt: (K, K) -> bool): (r: seq<Group<K>>)
    requires |keys| == |vals| && Total(lt)
    ensures Increasing(KeysOf(r), lt) && Distinct(KeysOf(r))
    ensures forall k :: k in KeysOf(r) <==> k in keys
    ensures forall i :: 0 <= i < |r| ==> r[i].total == SumWhere(keys, vals, r[i].key)
  {
    var ks := SortedKeys(keys, lt);
    var r := Aggregate(ks, keys, vals);
    assert KeysOf(r) == ks;
    r
  }

  /** What one value `v` under key `x` contributes to the groups `ks`. */
  function Share<K(==)>(ks: seq<K>, x: K, v: real): (t: real) {
    if ks == [] then 0.0 else (if ks[0] == x then v else 0.0) + Share(ks[1..], x, v)
  }

  /** A value lands in exactly one group when the keys are distinct and include its key. */
  lemma {:induction false} ShareOnce<K>(ks: seq<K>, x: K, v: real)
    requires Distinct(ks)
    ensures Share(ks, x, v) == if x in ks then v else 0.0
  {
    if ks != [] {
      ShareOnce(ks[1..], x, v);
      assert x in ks <==> x == ks[0] || x in ks[1..];
      assert ks[0] !in ks[1..];
    }
  }

  /** Groups over no rows sum to nothing. */
  lemma {:induction false} AggregateNothing<K>(ks: seq<K>)
    ensures TotalOf(Aggregate(ks, [], [])) == 0.0
  {
    if ks != [] {
      AggregateNothing(ks[1..]);
      assert Aggregate(ks, [], [])[1..] == Aggregate(ks[1..], [], []);
    }
  }

  /** Adding a row in front adds its share to the groups. */
  lemma {:induction false} AggregateStep<K>(ks: seq<K>, keys: seq<K>, vals: seq<real>)
    requires |keys| == |vals| && keys != []
    ensures TotalOf(Aggregate(ks, keys, vals))
            == Share(ks, keys[0], vals[0]) + TotalOf(Aggregate(ks, keys[1..], vals[1..]))
  {
    if ks != [] {
      AggregateStep(ks[1..], keys, vals);
      assert Aggregate(ks, keys, vals)[1..] == Aggregate(ks[1..], keys, vals);
      assert Aggregate(ks, keys[1..], vals[1..])[1..] == Aggregate(ks[1..], keys[1..], vals[1..]);
    }
  }

  /** Groups over distinct keys that cover every row's key add up to the column total. */
  lemma {:induction false} AggregateTotal<K>(ks: seq<K>, keys: seq<K>, vals: seq<real>)
    requires |keys| == |vals| && Distinct(ks)
    requires forall x :: x in keys ==> x in ks
    ensures TotalOf(Aggregate(ks, keys, vals)) == Sum(vals)
  {
    if keys == [] {
      AggregateNothing(ks);
    } else {
      AggregateStep(ks, keys, vals);
      ShareOnce(ks, keys[0], vals[0]);
      assert forall x :: x in keys[1..] ==> x in keys;
      AggregateTotal(ks, keys[1..], vals[1..]);
    }
  }

  /** The groups' sums add up to the sum of the whole value column. */
  lemma GroupSumTotal<K(!new)>(keys: seq<K>, vals: seq<real>, lt: (K, K) -> bool)
    requires |keys| == |vals| && Total(lt)
    ensures TotalOf(GroupSum(keys, vals, lt)) == Sum(vals)
  {
    AggregateTotal(SortedKeys(keys, lt), keys, vals);
  }

  /** Summing the difference of two columns per key is the difference of their sums. */
  lemma {:induction false} SumWhereDifference<K>(keys: seq<K>, a: seq<real>, b: seq<real>, c: seq<real>, k: K)
    requires |keys| == |a| == |b| == |c|
    requires forall i :: 0 <= i < |c| ==> c[i] == a[i] - b[i]
    ensures SumWhere(keys, c, k) == SumWhere(keys, a, k) - SumWhere(keys, b, k)
  {
    if keys != [] {
      SumWhereDifference(keys[1..], a[1..], b[1..], c[1..], k);
    }
  }

  /** When every key is k, the sum for k is the whole column's sum. */
  lemma {:induction false} SumWhereAll<K>(keys: seq<K>, vals: seq<real>, k: K)
    requires |keys| == |vals| && forall i :: 0 <= i < |keys| ==> keys[i] == k
    ensures SumWhere(keys, vals, k) == Sum(vals)
  {
    if keys != [] {
      SumWhereAll(keys[1..], vals[1..], k);
    }
  }

  /** The sum of a difference of two columns is the difference of their sums. */
  lemma {:induction false} SumDifference(a: seq<real>, b: seq<real>, c: seq<real>)
    requires |a| == |b| == |c|
    requires forall i :: 0 <= i < |c| ==> c[i] == a[i] - b[i]
    ensures Sum(c) == Sum(a) - Sum(b)
  {
    if c != [] {
      SumDifference(a[1..], b[1..], c[1..]);
    }
  }

  /** Sums in ascending order. */
  predicate Ascending<K>(gs: seq<Group<K>>) {
    forall i :: 0 <= i < |gs| - 1 ==> gs[i].total <= gs[i + 1].total
  }

  function InsertByTotal<K>(g: Group<K>, gs: seq<Group<K>>): (r: seq<Group<K>>)
    requires Ascending(gs)
    ensures Ascending(r) && multiset(r) == multiset(gs) + multiset{g}
    ensures r[0] == g || (gs != [] && r[0] == gs[0])
    ensures TotalOf(r) == g.total + TotalOf(gs)
  {
    if gs == [] || g.total <= gs[0].total then [g] + gs
    else
      var rest := InsertByTotal(g, gs[1..]);
      assert gs == [gs[0]] + gs[1..];
      [gs[0]] + rest
  }

  /**
   * `sort_values(by=total, ascending=True)`: the same groups, each exactly
   * as often, with ascending sums and the same grand total. The order of
   * equal sums is not pinned down (pandas' default sort is not stable).
   */
  function SortByTotal<K>(gs: seq<Group<K>>): (r: seq<Group<K>>)
    ensures Ascending(r) && multiset(r) == multiset(gs)
    ensures TotalOf(r) == TotalOf(gs)
  {
    if gs == [] then []
    else
      assert gs == [gs[0]] + gs[1..];
      InsertByTotal(gs[0], SortByTotal(gs[1..]))
  }
}
