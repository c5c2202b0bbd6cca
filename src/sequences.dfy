/** Facts about sequences shared by the table operations. */
module Sequences {

  predicate Distinct<T(==)>(s: seq<T>) {
    forall i, j :: 0 <= i < j < |s| ==> s[i] != s[j]
  }

  /**
   * pandas' `Series.unique()`: every value once, in the order in which it
   * first appears.
   */
  function Unique<T(==,!new)>(s: seq<T>): (r: seq<T>)
    ensures Distinct(r)
    ensures forall x :: x in r <==> x in s
  {
    if s == [] then []
    else
      var u := Unique(s[..|s| - 1]);
      assert forall x :: x in s <==> x in s[..|s| - 1] || x == s[|s| - 1];
      if s[|s| - 1] in u then u else u + [s[|s| - 1]]
  }

  /**
   * First-appearance order: the distinct values of a prefix come first,
   * in the same order, among the distinct values of the whole.
   */
  lemma {:induction false} UniquePrefix<T(!new)>(s: seq<T>, k: nat)
    requires k <= |s|
    ensures Unique(s[..k]) <= Unique(s)
  {
    if k < |s| {
      UniquePrefix(s[..|s| - 1], k);
      assert s[..|s| - 1][..k] == s[..k];
      assert s[..|s|] == s;
    } else {
      assert s[..k] == s;
    }
  }

  /** A sequence without repeats whose only element is x is [x]. */
  lemma OnlyElement<T>(s: seq<T>, x: T)
    requires Distinct(s) && x in s && forall y :: y in s ==> y == x
    ensures s == [x]
  {
    FirstTwo(s);
  }

  lemma FirstTwo<T>(s: seq<T>)
    ensures |s| > 0 ==> s[0] in s
    ensures |s| > 1 ==> s[1] in s
  {
  }
}
