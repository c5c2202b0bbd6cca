/**
 * The revenue column's text rewrite and number parse: the literal marker
 * "R$ " is removed (the regular expression `R\$ `), every comma becomes a
 * dot, and the text is then read as a decimal number.
 */
module Revenue {
  import opened Wrappers
  import Labels

  /** The currency marker the rewrite removes: "R", "$" and one space. */
  const Marker: string := "R$ "

  predicate IsMarkerChar(c: char) {
    c == 'R' || c == '$' || c == ' '
  }

  /** The characters of `s` that are not among the marker's three, in order. */
  function Others(s: string): (r: string) {
    if s == [] then [] else (if IsMarkerChar(s[0]) then [] else [s[0]]) + Others(s[1..])
  }

  /** The marker begins `s`. */
  predicate MarkerAt(s: string) {
    |s| >= 3 && s[0] == 'R' && s[1] == '$' && s[2] == ' '
  }

  /** The marker begins at offset k of `s`. */
  predicate MarkerStartsAt(s: string, k: nat) {
    k + 3 <= |s| && s[k] == 'R' && s[k + 1] == '$' && s[k + 2] == ' '
  }

  lemma OthersOfMarker(s: string)
    requires MarkerAt(s)
    ensures Others(s) == Others(s[3..])
  {
    assert Others(s) == Others(s[1..]);
    assert s[1..][1..] == s[2..];
    assert Others(s[1..]) == Others(s[2..]);
    assert s[2..][1..] == s[3..];
    assert Others(s[2..]) == Others(s[3..]);
  }

  /**
   * The regular-expression substitution of "R$ " by nothing: occurrences are
   * found from left to right and never overlap. Only marker characters go,
   * in groups of three; every other character stays, in order.
   */
  function DropMarker(s: string): (r: string)
    ensures |r| <= |s| && (|s| - |r|) % 3 == 0
    ensures Others(r) == Others(s)
  {
    if MarkerAt(s) then
      OthersOfMarker(s);
      DropMarker(s[3..])
    else if s == [] then []
    else
      var r := [s[0]] + DropMarker(s[1..]);
      assert r[1..] == DropMarker(s[1..]);
      r
  }

  /** Each occurrence of the marker is removed where it stands. */
  lemma DropMarkerPrefix(t: string)
    ensures DropMarker(Marker + t) == DropMarker(t)
  {
    var s := Marker + t;
    assert MarkerAt(s) && s[3..] == t;
  }

  /**
   * Text in which no occurrence of the marker starts passes through
   * unchanged, whatever follows it. With `DropMarkerPrefix` this pins the
   * scan: everything before the first occurrence is kept, the occurrence
   * goes, and a text with no occurrence is left as it is.
   */
  lemma {:induction false} DropMarkerKeepsPrefix(p: string, t: string)
    requires forall k: nat :: k < |p| ==> !MarkerStartsAt(p + t, k)
    ensures DropMarker(p + t) == p + DropMarker(t)
  {
    if p != [] {
      var s, q := p + t, p[1..];
      assert !MarkerStartsAt(s, 0);
      assert s[1..] == q + t;
      KeepFirst(s);
      forall k: nat | k < |q| ensures !MarkerStartsAt(q + t, k) {
        assert !MarkerStartsAt(s, k + 1);
      }
      DropMarkerKeepsPrefix(q, t);
      ConsAppend(p, DropMarker(t));
    } else {
      assert p + t == t;
    }
  }

  lemma ConsAppend(p: string, u: string)
    requires p != []
    ensures [p[0]] + (p[1..] + u) == p + u
  {
  }

  /** Where no marker starts, the first character is kept and the scan moves on by one. */
  lemma KeepFirst(s: string)
    requires s != [] && !MarkerAt(s)
    ensures DropMarker(s) == [s[0]] + DropMarker(s[1..])
  {
  }

  /** "R$" without the trailing space is not the marker and stays in the text. */
  lemma BareSymbolKept(t: string)
    requires t == [] || t[0] != ' '
    ensures DropMarker("R$" + t) == "R$" + DropMarker(t)
  {
    var s := "R$" + t;
    var u := "$" + t;
    assert s[0] == 'R' && s[1..] == u;
    assert |s| >= 3 ==> s[2] != ' ';
    assert DropMarker(s) == [s[0]] + DropMarker(u);
    DollarKept(t);
  }

  lemma DollarKept(t: string)
    ensures DropMarker("$" + t) == "$" + DropMarker(t)
  {
    var u := "$" + t;
    assert u[0] == '$' && u[1..] == t;
  }

  /** The `,` to `.` replacement: every comma becomes a dot, nothing else changes. */
  function CommaToDot(s: string): (r: string)
    ensures |r| == |s| && ',' !in r
    ensures forall i :: 0 <= i < |s| && s[i] != ',' ==> r[i] == s[i]
    ensures forall i :: 0 <= i < |s| && s[i] == ',' ==> r[i] == '.'
  {
    seq(|s|, i requires 0 <= i < |s| => if s[i] == ',' then '.' else s[i])
  }

  /** The whole text rewrite of a revenue cell: the marker removed, then commas made dots. */
  function RewriteRevenue(s: string): (r: string)
    ensures ',' !in r && |r| <= |s|
  {
    CommaToDot(DropMarker(s))
  }

  predicate IsDigit(c: char) {
    '0' <= c <= '9'
  }

  /** The characters a plain decimal is written with: digits, a point and a sign. */
  predicate IsNumberChar(c: char) {
    IsDigit(c) || c == '.' || c == '+' || c == '-'
  }

  predicate AllDigits(s: string) {
    forall i :: 0 <= i < |s| ==> IsDigit(s[i])
  }

  /** The value of a string of decimal digits. */
  function DigitsValue(d: string): (n: nat)
    requires AllDigits(d)
  {
    if d == [] then 0 else DigitsValue(d[..|d| - 1]) * 10 + (d[|d| - 1] as int - '0' as int)
  }

  /** The value of the digits after a decimal point: "56" is 0.56. */
  function FracValue(f: string): (v: real)
    requires AllDigits(f)
    ensures 0.0 <= v
  {
    if f == [] then 0.0 else ((f[0] as int - '0' as int) as real + FracValue(f[1..])) / 10.0
  }

  /** The first position of `c` in `s`, if any. */
  function IndexOf(s: string, c: char): (r: Option<nat>)
    ensures r.None? ==> c !in s
    ensures r.Some? ==> r.value < |s| && s[r.value] == c && c !in s[..r.value]
  {
    if s == [] then None
    else if s[0] == c then Some(0)
    else match IndexOf(s[1..], c)
      case None => None
      case Some(i) =>
        assert s[..i + 1] == [s[0]] + s[1..][..i];
        Some(i + 1)
  }

  /** An unsigned decimal: digits with at most one point, and at least one digit. */
  function ParseUnsigned(t: string): (r: Option<real>)
    ensures r.Some? ==> t != [] && 0.0 <= r.value && forall i :: 0 <= i < |t| ==> IsDigit(t[i]) || t[i] == '.'
    ensures t != [] && AllDigits(t) ==> r == Some(DigitsValue(t) as real)
  {
    match IndexOf(t, '.')
    case None =>
      if t != [] && AllDigits(t) then Some(DigitsValue(t) as real) else None
    case Some(i) =>
      var whole, frac := t[..i], t[i + 1..];
      if AllDigits(whole) && AllDigits(frac) && |whole| + |frac| > 0
      then
        assert forall j :: 0 <= j < |t| && j != i ==> (j < i && t[j] == whole[j]) || (j > i && t[j] == frac[j - i - 1]);
        Some(DecimalValue(whole, frac))
      else None
  }

  /** The value of the decimal `whole.frac`. */
  function DecimalValue(whole: string, frac: string): (v: real)
    requires AllDigits(whole) && AllDigits(frac)
  {
    DigitsValue(whole) as real + FracValue(frac)
  }

  /** An optional sign, then an unsigned decimal. */
  function ParseSigned(t: string): (r: Option<real>)
    ensures r.Some? ==> t != [] && forall i :: 0 <= i < |t| ==> IsNumberChar(t[i])
  {
    if |t| > 0 && (t[0] == '+' || t[0] == '-') then
      match ParseUnsigned(t[1..])
      case None => None
      case Some(v) =>
        assert forall i :: 1 <= i < |t| ==> t[i] == t[1..][i - 1];
        Some(if t[0] == '-' then -v else v)
    else ParseUnsigned(t)
  }

  /**
   * Python's `float()` on a text cell, for plain decimal spellings:
   * surrounding whitespace, an optional sign, then an unsigned decimal.
   */
  function ParseNumber(s: string): (r: Option<real>)
    ensures r.Some? ==> Labels.Strip(s) != []
    ensures r.Some? ==> forall i :: 0 <= i < |s| ==> Labels.IsSpace(s[i]) || IsNumberChar(s[i])
  {
    var t := Labels.Strip(s);
    var r := ParseSigned(t);
    if r.Some? then
      forall i | 0 <= i < |s| && !Labels.IsSpace(s[i]) ensures IsNumberChar(s[i]) {
        Labels.StripKeeps(s, i);
      }
      r
    else r
  }

  /** A text of digits alone, the whole cell, reads as the integer it spells. */
  lemma ParseInteger(d: string)
    requires d != [] && AllDigits(d)
    ensures ParseNumber(d) == Some(DigitsValue(d) as real)
  {
    assert !Labels.IsSpace(d[0]) && !Labels.IsSpace(d[|d| - 1]);
    Labels.StripFixed(d);
  }

  /** An unsigned decimal with a second point is rejected. */
  lemma UnsignedTwoPoints(t: string, i: int, j: int)
    requires 0 <= i < j < |t| && t[i] == '.' && t[j] == '.'
    ensures ParseUnsigned(t) == None
  {
    var k := IndexOf(t, '.');
    assert k.Some?;
    assert k.value <= i;
    assert t[k.value + 1..][j - k.value - 1] == '.';
  }

  lemma SignedTwoPoints(t: string, i: int, j: int)
    requires 0 <= i < j < |t| && t[i] == '.' && t[j] == '.'
    ensures ParseSigned(t) == None
  {
    if |t| > 0 && (t[0] == '+' || t[0] == '-') {
      assert t[1..][i - 1] == '.' && t[1..][j - 1] == '.';
      UnsignedTwoPoints(t[1..], i - 1, j - 1);
    } else {
      UnsignedTwoPoints(t, i, j);
    }
  }

  /**
   * A text holding two points is no number: a thousands separator such as
   * the one in "1.234,56" makes the parse fail once the comma became a dot.
   */
  lemma TwoPointsRejected(s: string, i: int, j: int)
    requires 0 <= i < j < |s| && s[i] == '.' && s[j] == '.'
    ensures ParseNumber(s) == None
  {
    var t, k := Labels.Strip(s), Labels.LeadingSpace(s);
    assert !Labels.IsSpace('.');
    Labels.StripKeeps(s, i);
    Labels.StripKeeps(s, j);
    SignedTwoPoints(t, i - k, j - k);
  }

  function Digit(n: nat): (c: char)
    requires n < 10
    ensures IsDigit(c) && c as int - '0' as int == n
  {
    ('0' as int + n) as char
  }

  /** The decimal digits of `n`, without leading zeros. */
  function NatDigits(n: nat): (d: string)
    ensures |d| > 0 && AllDigits(d)
  {
    if n < 10 then [Digit(n)] else NatDigits(n / 10) + [Digit(n % 10)]
  }

  /** Reading back the digits of `n` gives `n`. */
  lemma {:induction false} NatDigitsValue(n: nat)
    ensures DigitsValue(NatDigits(n)) == n
  {
    var d := NatDigits(n);
    if n >= 10 {
      NatDigitsValue(n / 10);
      assert d[..|d| - 1] == NatDigits(n / 10);
    } else {
      assert d[..0] == [];
    }
  }

  /** An amount written the way the sheet writes it: "R$ ", the reais, a comma, two digits of centavos. */
  function Brl(reais: nat, centavos: nat): (s: string)
    requires centavos < 100
  {
    Marker + NatDigits(reais) + "," + Cents(centavos)
  }

  /** The two digits of a centavos amount below 100, leading zero kept. */
  function Cents(c: nat): (d: string)
    requires c < 100
    ensures |d| == 2 && AllDigits(d)
    ensures (d[0] as int - '0' as int) * 10 + (d[1] as int - '0' as int) == c
  {
    [Digit(c / 10), Digit(c % 10)]
  }

  /** Text without an "R" behind the marker: the rewrite only turns its commas into dots. */
  lemma RewriteAfterMarker(rest: string)
    requires 'R' !in rest
    ensures RewriteRevenue(Marker + rest) == CommaToDot(rest)
  {
    DropMarkerPrefix(rest);
    assert rest + [] == rest;
    forall k: nat | k < |rest| ensures !MarkerStartsAt(rest + [], k) {
      assert rest[k] != 'R';
    }
    DropMarkerKeepsPrefix(rest, []);
    assert rest + [] == rest;
  }

  /** Digits, a point, digits: the unsigned parse reads the whole part and the fraction. */
  lemma UnsignedDecimal(w: string, f: string)
    requires AllDigits(w) && AllDigits(f) && |w| + |f| > 0
    ensures ParseUnsigned(w + "." + f) == Some(DecimalValue(w, f))
  {
    var x := w + "." + f;
    var k := IndexOf(x, '.');
    assert x[|w|] == '.';
    assert k == Some(|w|);
    assert x[..|w|] == w && x[|w| + 1..] == f;
    var whole, frac := x[..|w|], x[|w| + 1..];
    assert AllDigits(whole) && AllDigits(frac) && |whole| + |frac| > 0;
    assert whole == w && frac == f;
  }

  /** The same text as a whole cell: nothing to strip, no sign. */
  lemma ParseDecimal(w: string, f: string)
    requires |w| > 0 && |f| > 0 && AllDigits(w) && AllDigits(f)
    ensures ParseNumber(w + "." + f) == Some(DecimalValue(w, f))
  {
    var x := w + "." + f;
    assert x[0] == w[0] && x[|x| - 1] == f[|f| - 1];
    Labels.StripFixed(x);
    UnsignedDecimal(w, f);
  }

  /** A signed decimal, "-12.5" or "+12.5", reads as the signed value; a negative amount is not clamped. */
  lemma SignedDecimal(sign: char, w: string, f: string)
    requires sign == '+' || sign == '-'
    requires AllDigits(w) && AllDigits(f) && |w| + |f| > 0
    ensures ParseNumber([sign] + w + "." + f)
            == Some(if sign == '-' then -DecimalValue(w, f) else DecimalValue(w, f))
  {
    var x := [sign] + w + "." + f;
    assert x[1..] == w + "." + f;
    assert !Labels.IsSpace(x[0]);
    assert !Labels.IsSpace(x[|x| - 1]) by {
      if |f| > 0 { assert x[|x| - 1] == f[|f| - 1]; } else { assert x[|x| - 1] == '.'; }
    }
    Labels.StripFixed(x);
    UnsignedDecimal(w, f);
  }

  /** Whitespace around a number does not change how it reads. */
  lemma Padded(a: string, c: string, b: string)
    requires forall i :: 0 <= i < |a| ==> Labels.IsSpace(a[i])
    requires forall i :: 0 <= i < |b| ==> Labels.IsSpace(b[i])
    requires c != [] && Labels.IsStripped(c)
    ensures ParseNumber(a + c + b) == ParseNumber(c)
  {
    StripPadded(a, c, b);
    Labels.StripFixed(c);
  }

  /** Stripping whitespace-padded text gives back the stripped text inside. */
  lemma StripPadded(a: string, c: string, b: string)
    requires forall i :: 0 <= i < |a| ==> Labels.IsSpace(a[i])
    requires forall i :: 0 <= i < |b| ==> Labels.IsSpace(b[i])
    requires c != [] && Labels.IsStripped(c)
    ensures Labels.Strip(a + c + b) == c
  {
    var s := a + c + b;
    var n := Labels.LeadingSpace(s);
    var r := Labels.Strip(s);
    assert forall i :: 0 <= i < |a| ==> s[i] == a[i];
    assert forall j :: |a| + |c| <= j < |s| ==> s[j] == b[j - |a| - |c|];
    assert s[|a|] == c[0];
    assert n == |a|;
    assert s[|a| + |c| - 1] == c[|c| - 1];
    assert |r| >= |c|;
    assert |r| == |c|;
    assert r == s[|a|..|a| + |c|] == c;
  }

  /** The rewrite turns "R$ 12,34" into "12.34". */
  lemma {:induction false} BrlRewrite(reais: nat, centavos: nat)
    requires centavos < 100
    ensures RewriteRevenue(Brl(reais, centavos))
            == NatDigits(reais) + "." + Cents(centavos)
  {
    var w := NatDigits(reais);
    var cc := Cents(centavos);
    var rest := w + "," + cc;
    assert Brl(reais, centavos) == Marker + rest;
    assert 'R' !in rest by {
      forall i | 0 <= i < |rest| ensures rest[i] != 'R' {
        if i < |w| { assert rest[i] == w[i]; }
        else if i > |w| { assert rest[i] == cc[i - |w| - 1]; }
      }
    }
    RewriteAfterMarker(rest);
    var x := CommaToDot(rest);
    forall i | 0 <= i < |x| ensures x[i] == (w + "." + cc)[i] {
      if i < |w| { assert rest[i] == w[i]; }
      else if i > |w| { assert rest[i] == cc[i - |w| - 1]; }
    }
    assert x == w + "." + cc;
  }

  /** The digits of an amount read back as reais and centavos. */
  lemma {:induction false} BrlValue(reais: nat, centavos: nat)
    requires centavos < 100
    ensures DecimalValue(NatDigits(reais), Cents(centavos))
            == reais as real + centavos as real / 100.0
  {
    var cc := Cents(centavos);
    NatDigitsValue(reais);
    var tens := (cc[0] as int - '0' as int) as real;
    var units := (cc[1] as int - '0' as int) as real;
    assert cc[1..][1..] == [];
    assert FracValue(cc[1..]) == units / 10.0;
    assert FracValue(cc) == (tens + units / 10.0) / 10.0;
    assert centavos as real == tens * 10.0 + units;
  }

  /** The rewritten amount, "12.34", parses to reais plus centavos. */
  lemma BrlDigitsParse(reais: nat, centavos: nat)
    requires centavos < 100
    ensures ParseNumber(NatDigits(reais) + "." + Cents(centavos))
            == Some(reais as real + centavos as real / 100.0)
  {
    ParseDecimal(NatDigits(reais), Cents(centavos));
    BrlValue(reais, centavos);
  }

  /** The rewrite and parse read an amount written without a thousands separator back exactly. */
  lemma BrlRoundTrip(reais: nat, centavos: nat)
    requires centavos < 100
    ensures ParseNumber(RewriteRevenue(Brl(reais, centavos)))
            == Some(reais as real + centavos as real / 100.0)
  {
    BrlRewrite(reais, centavos);
    BrlDigitsParse(reais, centavos);
  }

  /** A text whose first non-blank character is neither a sign, a digit nor a point is no number. */
  lemma {:induction false} LeadingLetterRejected(x: string)
    requires Labels.Strip(x) != []
    requires !IsDigit(Labels.Strip(x)[0])
    requires Labels.Strip(x)[0] != '+' && Labels.Strip(x)[0] != '-' && Labels.Strip(x)[0] != '.'
    ensures ParseNumber(x) == None
  {
    var t := Labels.Strip(x);
    match IndexOf(t, '.')
    case None =>
    case Some(i) =>
      assert t[..i][0] == t[0];
  }

  /** With "R$" written without its space the "R" survives the rewrite and the parse fails. */
  lemma {:induction false} BareSymbolRejected(reais: nat, centavos: nat)
    requires centavos < 100
    ensures ParseNumber(RewriteRevenue("R$" + NatDigits(reais) + "," + Cents(centavos))) == None
  {
    var rest := NatDigits(reais) + "," + Cents(centavos);
    assert "R$" + NatDigits(reais) + "," + Cents(centavos) == "R$" + rest;
    assert rest[0] != ' ';
    BareSymbolKept(rest);
    var x := RewriteRevenue("R$" + rest);
    assert x[0] == 'R';
    Labels.StripKeeps(x, 0);
    LeadingLetterRejected(x);
  }

  /**
   * With a thousands separator ("R$ 1.234,56") the rewrite leaves two points
   * ("1.234.56") and the parse fails.
   */
  lemma {:induction false} ThousandsSeparatorRejected(a: string, b: string, c: string)
    requires AllDigits(a) && AllDigits(b) && AllDigits(c)
    ensures ParseNumber(RewriteRevenue(Marker + a + "." + b + "," + c)) == None
  {
    var rest := a + "." + b + "," + c;
    assert Marker + a + "." + b + "," + c == Marker + rest;
    assert 'R' !in rest by {
      forall i | 0 <= i < |rest| ensures rest[i] != 'R' {
        if i < |a| { assert rest[i] == a[i]; }
        else if |a| < i < |a| + 1 + |b| { assert rest[i] == b[i - |a| - 1]; }
        else if i > |a| + 1 + |b| { assert rest[i] == c[i - |a| - |b| - 2]; }
      }
    }
    RewriteAfterMarker(rest);
    var x := CommaToDot(rest);
    assert x[|a|] == '.' && x[|a| + 1 + |b|] == '.';
    TwoPointsRejected(x, |a|, |a| + 1 + |b|);
  }
}
