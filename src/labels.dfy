/**
 * Column-label normalisation: every header label is stripped of surrounding
 * whitespace and then capitalised (first character upper case, the rest
 * lower case), as pandas' `str.strip().str.capitalize()` does.
 */
module Labels {

  /** Python's `str.isspace()` on one character. */
  predicate IsSpace(c: char) {
    var n := c as int;
    n == 0x20 || 0x09 <= n <= 0x0D || 0x1C <= n <= 0x1F || n == 0x85 || n == 0xA0
    || n == 0x1680 || 0x2000 <= n <= 0x200A || n == 0x2028 || n == 0x2029
    || n == 0x202F || n == 0x205F || n == 0x3000
  }

  /** Lower-case letters that have a one-character upper-case partner (ASCII and Latin-1). */
  predicate IsLowerLetter(c: char) {
    'a' <= c <= 'z' || (0xE0 <= c as int <= 0xFE && c as int != 0xF7)
  }

  /** Upper-case letters that have a one-character lower-case partner (ASCII and Latin-1). */
  predicate IsUpperLetter(c: char) {
    'A' <= c <= 'Z' || (0xC0 <= c as int <= 0xDE && c as int != 0xD7)
  }

  /** `str.upper()` on one character: a lower-case letter becomes its partner, anything else is kept. */
  function Upper(c: char): (u: char)
    ensures IsSpace(u) == IsSpace(c)
    ensures !IsLowerLetter(u)
    ensures IsLowerLetter(c) ==> IsUpperLetter(u)
    ensures !IsLowerLetter(c) ==> u == c
  {
    if IsLowerLetter(c) then (c as int - 32) as char else c
  }

  /** `str.lower()` on one character: an upper-case letter becomes its partner, anything else is kept. */
  function Lower(c: char): (l: char)
    ensures IsSpace(l) == IsSpace(c)
    ensures !IsUpperLetter(l)
    ensures IsUpperLetter(c) ==> IsLowerLetter(l)
    ensures !IsUpperLetter(c) ==> l == c
  {
    if IsUpperLetter(c) then (c as int + 32) as char else c
  }

  /** A letter and its partner map to each other; changing case twice keeps only the last change. */
  lemma CaseRoundTrip(c: char)
    ensures IsLowerLetter(c) ==> Lower(Upper(c)) == c
    ensures IsUpperLetter(c) ==> Upper(Lower(c)) == c
    ensures Upper(Upper(c)) == Upper(c) && Lower(Lower(c)) == Lower(c)
    ensures Upper(Lower(c)) == Upper(c)
    ensures Lower(Upper(c)) == Lower(c)
  {
  }

  function LowerAll(s: string): (r: string)
    ensures |r| == |s|
    ensures forall i :: 0 <= i < |s| ==> r[i] == Lower(s[i])
  {
    if s == [] then [] else [Lower(s[0])] + LowerAll(s[1..])
  }

  /** No whitespace at either end. */
  predicate IsStripped(s: string) {
    s == [] || (!IsSpace(s[0]) && !IsSpace(s[|s| - 1]))
  }

  /** How many whitespace characters open `s`: what `s.lstrip()` cuts off. */
  function LeadingSpace(s: string): (n: nat)
    ensures n <= |s|
    ensures forall i :: 0 <= i < n ==> IsSpace(s[i])
    ensures n < |s| ==> !IsSpace(s[n])
  {
    if |s| > 0 && IsSpace(s[0]) then 1 + LeadingSpace(s[1..]) else 0
  }

  /** How many whitespace characters close `s`: what `s.rstrip()` cuts off. */
  function TrailingSpace(s: string): (n: nat)
    ensures n <= |s|
    ensures forall i :: |s| - n <= i < |s| ==> IsSpace(s[i])
    ensures n < |s| ==> !IsSpace(s[|s| - n - 1])
  {
    if |s| > 0 && IsSpace(s[|s| - 1]) then 1 + TrailingSpace(s[..|s| - 1]) else 0
  }

  /**
   * `s.strip()`: the slice of `s` that starts after its leading whitespace,
   * has no whitespace at either end, and is followed only by whitespace.
   */
  function Strip(s: string): (r: string)
    ensures IsStripped(r)
    ensures LeadingSpace(s) + |r| <= |s| && r == s[LeadingSpace(s)..LeadingSpace(s) + |r|]
    ensures forall i :: LeadingSpace(s) + |r| <= i < |s| ==> IsSpace(s[i])
  {
    var n := LeadingSpace(s);
    var t := s[n..];
    var m := TrailingSpace(t);
    assert forall i :: n + |t| - m <= i < |s| ==> s[i] == t[i - n];
    assert t[..|t| - m] == s[n..n + |t| - m];
    t[..|t| - m]
  }

  /** A character that is not whitespace survives `strip()`, at its place in the slice. */
  lemma StripKeeps(s: string, i: int)
    requires 0 <= i < |s| && !IsSpace(s[i])
    ensures LeadingSpace(s) <= i < LeadingSpace(s) + |Strip(s)|
    ensures Strip(s)[i - LeadingSpace(s)] == s[i]
  {
  }

  /** `s.capitalize()` on the characters this model gives a case partner. */
  function Capitalize(s: string): (r: string)
    ensures |r| == |s|
    ensures |s| > 0 ==> r[0] == Upper(s[0])
    ensures forall i :: 1 <= i < |s| ==> r[i] == Lower(s[i])
  {
    if s == [] then [] else [Upper(s[0])] + LowerAll(s[1..])
  }

  /** The shape every normalised label has. */
  predicate IsNormal(s: string) {
    && IsStripped(s)
    && (|s| > 0 ==> Upper(s[0]) == s[0])
    && forall i :: 1 <= i < |s| ==> Lower(s[i]) == s[i]
  }

  /** Capitalising a stripped text gives the normal shape. */
  lemma CapitalizeNormal(t: string)
    requires IsStripped(t)
    ensures IsNormal(Capitalize(t))
  {
    var r := Capitalize(t);
    if |t| > 0 {
      CaseRoundTrip(t[0]);
      CaseRoundTrip(t[|t| - 1]);
      assert !IsSpace(r[0]) && !IsSpace(r[|r| - 1]);
    }
    forall i | 1 <= i < |r| ensures Lower(r[i]) == r[i] {
      CaseRoundTrip(t[i]);
    }
  }

  /** One header label after `str.strip().str.capitalize()`. */
  function NormalizeLabel(s: string): (r: string)
    ensures IsNormal(r)
    ensures |r| <= |s|
  {
    var t := Strip(s);
    CapitalizeNormal(t);
    Capitalize(t)
  }

  /** Every label of the header row normalised, in place. */
  function NormalizeLabels(labels: seq<string>): (r: seq<string>)
    ensures |r| == |labels|
    ensures forall i :: 0 <= i < |r| ==> IsNormal(r[i])
    ensures forall i :: 0 <= i < |labels| ==> r[i] == NormalizeLabel(labels[i])
  {
    seq(|labels|, i requires 0 <= i < |labels| => NormalizeLabel(labels[i]))
  }

  /** A label that already has the normal shape is left as it is. */
  lemma {:induction false} NormalFixed(s: string)
    requires IsNormal(s)
    ensures NormalizeLabel(s) == s
  {
    StripFixed(s);
    assert Capitalize(s) == s;
  }

  /** Normalising a label twice gives what normalising once gives. */
  lemma {:induction false} NormalizeIdempotent(s: string)
    ensures NormalizeLabel(NormalizeLabel(s)) == NormalizeLabel(s)
  {
    NormalFixed(NormalizeLabel(s));
  }

  /** Normalising the whole header row is idempotent too. */
  lemma {:induction false} NormalizeLabelsIdempotent(labels: seq<string>)
    ensures NormalizeLabels(NormalizeLabels(labels)) == NormalizeLabels(labels)
  {
    forall i | 0 <= i < |labels|
      ensures NormalizeLabels(NormalizeLabels(labels))[i] == NormalizeLabels(labels)[i]
    {
      NormalizeIdempotent(labels[i]);
    }
  }

  /** Capitalising two texts gives the same text exactly when their lower-case forms agree. */
  lemma {:induction false} CapitalizeInsensitive(a: string, b: string)
    ensures Capitalize(a) == Capitalize(b) <==> LowerAll(a) == LowerAll(b)
  {
    var ca, cb, la, lb := Capitalize(a), Capitalize(b), LowerAll(a), LowerAll(b);
    if |a| == |b| && |a| > 0 {
      CaseRoundTrip(a[0]);
      CaseRoundTrip(b[0]);
      if la == lb {
        assert la[0] == lb[0];
        forall i | 0 <= i < |a| ensures ca[i] == cb[i] {
          assert la[i] == lb[i];
        }
        assert ca == cb;
      }
      if ca == cb {
        assert ca[0] == cb[0];
        forall i | 0 <= i < |a| ensures la[i] == lb[i] {
          assert ca[i] == cb[i];
        }
        assert la == lb;
      }
    }
  }

  /**
   * Two labels normalise to the same text exactly when they agree once their
   * surrounding whitespace is cut off and their letters are put in lower case.
   */
  lemma {:induction false} NormalizeInsensitive(a: string, b: string)
    ensures NormalizeLabel(a) == NormalizeLabel(b) <==> LowerAll(Strip(a)) == LowerAll(Strip(b))
  {
    CapitalizeInsensitive(Strip(a), Strip(b));
  }

  /** A text with no whitespace at its ends is its own strip. */
  lemma StripFixed(s: string)
    requires IsStripped(s)
    ensures Strip(s) == s
  {
    assert LeadingSpace(s) == 0;
    assert s[0..] == s;
    assert TrailingSpace(s) == 0;
  }
}
