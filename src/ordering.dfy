/**
 * The order in which pandas lists group-by keys: Python's comparison of
 * strings (code point by code point, a proper prefix first) and of tuples
 * (first component, then second).
 */
module Ordering {

  /** `lt` puts any two different keys in some order. */
  ghost predicate Total<K(!new)>(lt: (K, K) -> bool) {
    forall a, b :: a != b ==> lt(a, b) || lt(b, a)
  }

  /** Each key is strictly below the next one. */
  predicate Increasing<K>(ks: seq<K>, lt: (K, K) -> bool) {
    forall i :: 0 <= i < |ks| - 1 ==> lt(ks[i], ks[i + 1])
  }

  /** Python's `a < b` on `str`. */
  function StrLess(a: string, b: string): bool {
    if a == [] then b != []
    else if b == [] then false
    else if a[0] != b[0] then a[0] < b[0]
    else StrLess(a[1..], b[1..])
  }

  lemma {:induction false} StrLessIrreflexive(a: string)
    ensures !StrLess(a, a)
  {
    if a != [] {
      StrLessIrreflexive(a[1..]);
    }
  }

  lemma {:induction false} StrLessTrichotomy(a: string, b: string)
    ensures a == b || StrLess(a, b) || StrLess(b, a)
  {
    if a != [] && b != [] && a[0] == b[0] {
      StrLessTrichotomy(a[1..], b[1..]);
      if a[1..] == b[1..] {
        assert a == [a[0]] + a[1..] && b == [b[0]] + b[1..];
      }
    }
  }

  lemma {:induction false} StrLessTransitive(a: string, b: string, c: string)
    requires StrLess(a, b) && StrLess(b, c)
    ensures StrLess(a, c)
  {
    if a != [] && b != [] && c != [] && a[0] == b[0] == c[0] {
      StrLessTransitive(a[1..], b[1..], c[1..]);
    }
  }

  /** String comparison is a strict total order. */
  lemma StrLessOrder()
    ensures Total(StrLess)
    ensures forall a :: !StrLess(a, a)
    ensures forall a, b, c :: StrLess(a, b) && StrLess(b, c) ==> StrLess(a, c)
  {
    forall a, b | a != b ensures StrLess(a, b) || StrLess(b, a) {
      StrLessTrichotomy(a, b);
    }
    forall a ensures !StrLess(a, a) {
      StrLessIrreflexive(a);
    }
    forall a, b, c | StrLess(a, b) && StrLess(b, c) ensures StrLess(a, c) {
      StrLessTransitive(a, b, c);
    }
  }

  /** Python's `<` on pairs of strings: the first components decide, then the second. */
  function PairLess(a: (string, string), b: (string, string)): bool {
    StrLess(a.0, b.0) || (a.0 == b.0 && StrLess(a.1, b.1))
  }

  /** Pair comparison is a strict total order too. */
  lemma PairLessOrder()
    ensures Total(PairLess)
    ensures forall a :: !PairLess(a, a)
    ensures forall a, b, c :: PairLess(a, b) && PairLess(b, c) ==> PairLess(a, c)
  {
    StrLessOrder();
    forall a: (string, string), b: (string, string) | a != b
      ensures PairLess(a, b) || PairLess(b, a)
    {
      StrLessTrichotomy(a.0, b.0);
      StrLessTrichotomy(a.1, b.1);
    }
  }
}
