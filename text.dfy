/** The cell-level text handling of the trade export: the ticker token of a
    security description, the removal of `$` from amounts, and the decimal
    reading of what is left. */
module Text {
  import opened Wrappers

  // ---------------------------------------------------------------------
  // Splitting a description on runs of spaces (the regular expression " +")
  // ---------------------------------------------------------------------

  /** True when `s` holds no space character. */
  predicate NoSpace(s: string) {
    forall i :: 0 <= i < |s| ==> s[i] != ' '
  }

  /** `k` space characters. */
  function Spaces(k: nat): (s: string)
    ensures |s| == k && (k > 0 ==> s[0] == ' ')
  {
    if k == 0 then "" else " " + Spaces(k - 1)
  }

  /** Length of the longest prefix of `s` that holds no space. */
  function WordLength(s: string): (n: nat)
    ensures n <= |s|
    ensures forall i :: 0 <= i < n ==> s[i] != ' '
    ensures n < |s| ==> s[n] == ' '
  {
    if s == [] || s[0] == ' ' then 0 else 1 + WordLength(s[1..])
  }

  /** `s` without its leading run of spaces. */
  function SkipSpaces(s: string): (r: string)
    ensures |r| <= |s|
    ensures s != [] && s[0] == ' ' ==> |r| < |s|
    ensures r == [] || r[0] != ' '
  {
    if s != [] && s[0] == ' ' then SkipSpaces(s[1..]) else s
  }

  /** The pieces of `s` between maximal runs of spaces, as a regular-expression
      split on " +" gives them: a leading run yields an empty first piece and a
      trailing run an empty last piece. */
  function Tokens(s: string): (ts: seq<string>)
    ensures |ts| >= 1
    ensures forall i :: 0 <= i < |ts| ==> NoSpace(ts[i])
    ensures forall i :: 0 < i < |ts| - 1 ==> ts[i] != []
    decreases |s|
  {
    var n := WordLength(s);
    if n == |s| then [s]
    else
      var rest := SkipSpaces(s[n..]);
      var more := Tokens(rest);
      assert rest == [] ==> |more| == 1;
      [s[..n]] + more
  }

  /** The ticker symbol of a description: its piece at index 1, missing when the
      description splits into a single piece. */
  function Symbol(descr: string): (r: Option<string>)
    ensures r.None? <==> NoSpace(descr)
    ensures r.Some? ==> NoSpace(r.value)
  {
    var ts := Tokens(descr);
    SingleToken(descr);
    if |ts| >= 2 then Some(ts[1]) else None
  }

  lemma SingleToken(s: string)
    ensures |Tokens(s)| == 1 <==> NoSpace(s)
  {
    var n := WordLength(s);
    if n < |s| {
      assert s[n] == ' ';
    }
  }

  /** A piece without spaces, followed by the end or by a space, is the first
      piece of the split. */
  lemma FirstToken(t: string, rest: string)
    requires NoSpace(t)
    requires rest == [] || rest[0] == ' '
    ensures WordLength(t + rest) == |t|
    ensures Tokens(t + rest)[0] == t
  {
    var s := t + rest;
    assert s[..|t|] == t;
  }

  /** Splitting after a piece and a run of any length of spaces continues with
      the split of what follows the run. */
  lemma TokensAfterRun(t: string, k: nat, u: string)
    requires NoSpace(t) && k >= 1
    requires u == [] || u[0] != ' '
    ensures Tokens(t + Spaces(k) + u) == [t] + Tokens(u)
  {
    var v := Spaces(k) + u;
    var s := t + v;
    assert t + Spaces(k) + u == s;
    FirstToken(t, v);
    assert s[..|t|] == t;
    assert s[|t|..] == v;
    SkipRun(k, u);
  }

  lemma SkipRun(k: nat, u: string)
    requires u == [] || u[0] != ' '
    ensures SkipSpaces(Spaces(k) + u) == u
  {
    if k > 0 {
      var s := Spaces(k) + u;
      assert s == " " + (Spaces(k - 1) + u);
      assert s[1..] == Spaces(k - 1) + u;
      SkipRun(k - 1, u);
    }
  }

  /** Every description of the shape `head`, a run of spaces, `ticker`, then
      the end or a further run, yields `ticker`. An empty `ticker` is possible
      only at the end (a trailing run of spaces). */
  lemma SymbolOf(head: string, k: nat, ticker: string, rest: string)
    requires NoSpace(head) && NoSpace(ticker) && k >= 1
    requires rest == [] || rest[0] == ' '
    requires ticker != [] || rest == []
    ensures Symbol(head + Spaces(k) + ticker + rest) == Some(ticker)
  {
    var u := ticker + rest;
    assert head + Spaces(k) + ticker + rest == head + Spaces(k) + u;
    assert u == [] || u[0] != ' ' by {
      if ticker != [] { assert u[0] == ticker[0]; }
    }
    TokensAfterRun(head, k, u);
    FirstToken(ticker, rest);
  }

  // ---------------------------------------------------------------------
  // Removing the currency sign
  // ---------------------------------------------------------------------

  /** `s` with every literal `$` removed, the rest kept in order. */
  function StripDollar(s: string): (r: string)
    ensures '$' !in r
    ensures |r| <= |s|
  {
    if s == [] then [] else (if s[0] == '$' then [] else [s[0]]) + StripDollar(s[1..])
  }

  /** Removal works piece by piece: it keeps the order of what remains. */
  lemma {:induction false} StripDollarConcat(a: string, b: string)
    ensures StripDollar(a + b) == StripDollar(a) + StripDollar(b)
  {
    if a == [] {
      assert a + b == b;
    } else {
      var head := if a[0] == '$' then "" else [a[0]];
      assert (a + b)[0] == a[0];
      assert (a + b)[1..] == a[1..] + b;
      assert StripDollar(a + b) == head + StripDollar(a[1..] + b);
      StripDollarConcat(a[1..], b);
      assert head + (StripDollar(a[1..]) + StripDollar(b)) == (head + StripDollar(a[1..])) + StripDollar(b);
    }
  }

  /** A text without `$` is left unchanged, so removal is idempotent. */
  lemma {:induction false} StripDollarUnchanged(s: string)
    requires '$' !in s
    ensures StripDollar(s) == s
  {
    if s != [] {
      assert '$' !in s[1..] by { assert forall c :: c in s[1..] ==> c in s; }
      StripDollarUnchanged(s[1..]);
    }
  }

  // ---------------------------------------------------------------------
  // Reading a decimal number
  // ---------------------------------------------------------------------

  predicate IsDigit(c: char) {
    '0' <= c <= '9'
  }

  predicate AllDigits(s: string) {
    forall i :: 0 <= i < |s| ==> IsDigit(s[i])
  }

  function DigitValue(c: char): (d: nat)
    requires IsDigit(c)
    ensures d < 10
  {
    (c as int - '0' as int) as nat
  }

  function DigitChar(d: nat): (c: char)
    requires d < 10
    ensures IsDigit(c) && DigitValue(c) == d
  {
    ('0' as int + d) as char
  }

  /** `acc` followed by the decimal digits `s`: "25" after 1 is 125. */
  function DigitsFrom(acc: real, s: string): real
    requires AllDigits(s)
    decreases s
  {
    if s == [] then acc else DigitsFrom(acc * 10.0 + DigitValue(s[0]) as real, s[1..])
  }

  /** The value of a string of decimal digits (0 for the empty string). */
  function DigitsValue(s: string): real
    requires AllDigits(s)
  {
    DigitsFrom(0.0, s)
  }

  /** The value of the digits after a decimal point: "25" is 0.25. */
  function FracValue(s: string): real
    requires AllDigits(s)
  {
    if s == [] then 0.0 else (DigitValue(s[0]) as real + FracValue(s[1..])) / 10.0
  }

  /** The text before the first decimal point (all of `b` when there is none). */
  function WholePart(b: string): string {
    if b == [] || b[0] == '.' then [] else [b[0]] + WholePart(b[1..])
  }

  /** The text after the first decimal point (empty when there is none). */
  function AfterPoint(b: string): string {
    if b == [] then [] else if b[0] == '.' then b[1..] else AfterPoint(b[1..])
  }

  /** Index of the first `c` in `s`, or `|s|` when there is none. */
  function IndexOf(s: string, c: char): (n: nat)
    ensures n <= |s|
    ensures forall i :: 0 <= i < n ==> s[i] != c
    ensures n < |s| ==> s[n] == c
  {
    if s == [] || s[0] == c then 0 else 1 + IndexOf(s[1..], c)
  }

  /** `s` without one leading sign character. */
  function Unsigned(s: string): string {
    if |s| > 0 && (s[0] == '-' || s[0] == '+') then s[1..] else s
  }

  /** The number denoted by the digits before and after the decimal point. */
  function ParseParts(whole: string, frac: string): Option<real> {
    if AllDigits(whole) && AllDigits(frac) && (whole != [] || frac != []) then
      Some(DigitsValue(whole) + FracValue(frac))
    else
      None
  }

  /** An unsigned decimal: the digits up to the first point, and those after it. */
  function ParseUnsigned(b: string): Option<real> {
    ParseParts(WholePart(b), AfterPoint(b))
  }

  /** The number a cost cell holds once `$` is removed; missing (a parse error
      for the caller) when the text is not a plain decimal number. */
  function ParseAmount(s: string): Option<real> {
    match ParseUnsigned(Unsigned(s))
    case None => None
    case Some(m) => Some(if |s| > 0 && s[0] == '-' then -m else m)
  }

  /** The unsigned texts the decimal reading accepts: digits and at most one
      decimal point, with at least one digit. */
  predicate WellFormedUnsigned(b: string) {
    && (forall i :: 0 <= i < |b| ==> IsDigit(b[i]) || b[i] == '.')
    && (forall i, j :: 0 <= i < j < |b| && b[i] == '.' ==> b[j] != '.')
    && (exists i :: 0 <= i < |b| && IsDigit(b[i]))
  }

  /** The texts the decimal reading accepts: an optional sign, then a
      well-formed unsigned decimal. */
  predicate WellFormedAmount(s: string) {
    WellFormedUnsigned(Unsigned(s))
  }

  /** The reading succeeds exactly on well-formed decimals; anything else left
      after removing `$` (letters, a thousands comma, a second point, a bare
      sign, the empty text) is rejected. */
  lemma ParseAmountAccepts(s: string)
    ensures ParseAmount(s).Some? <==> WellFormedAmount(s)
  {
    var b := Unsigned(s);
    var k := IndexOf(b, '.');
    if k == |b| {
      ParseUnsignedNoPoint(b);
    } else {
      var whole, frac := b[..k], b[k + 1..];
      assert b == whole + "." + frac;
      ParseUnsignedPoint(whole, frac);
    }
  }

  lemma {:induction false} NoPointParts(b: string)
    requires forall i :: 0 <= i < |b| ==> b[i] != '.'
    ensures WholePart(b) == b && AfterPoint(b) == []
  {
    if b != [] {
      NoPointParts(b[1..]);
      assert b == [b[0]] + b[1..];
    }
  }

  /** Splitting at the first point of `whole` "." `frac` gives its two sides. */
  lemma {:induction false} SplitAtPoint(whole: string, frac: string)
    requires forall i :: 0 <= i < |whole| ==> whole[i] != '.'
    ensures WholePart(whole + "." + frac) == whole
    ensures AfterPoint(whole + "." + frac) == frac
  {
    var b := whole + "." + frac;
    if whole == [] {
      assert b == "." + frac;
      assert b[1..] == frac;
    } else {
      assert b[0] == whole[0];
      assert b[1..] == whole[1..] + "." + frac;
      SplitAtPoint(whole[1..], frac);
      assert whole == [whole[0]] + whole[1..];
    }
  }

  lemma ParseUnsignedNoPoint(b: string)
    requires forall i :: 0 <= i < |b| ==> b[i] != '.'
    ensures ParseUnsigned(b).Some? <==> WellFormedUnsigned(b)
  {
    NoPointParts(b);
    if AllDigits(b) && b != [] {
      assert IsDigit(b[0]);
    }
  }

  lemma ParseUnsignedPoint(whole: string, frac: string)
    requires forall i :: 0 <= i < |whole| ==> whole[i] != '.'
    ensures ParseUnsigned(whole + "." + frac).Some? <==> WellFormedUnsigned(whole + "." + frac)
  {
    SplitAtPoint(whole, frac);
    var b := whole + "." + frac;
    var k := |whole|;
    assert b[k] == '.';
    assert forall i :: 0 <= i < k ==> b[i] == whole[i];
    assert forall i :: k < i < |b| ==> b[i] == frac[i - k - 1];
    if AllDigits(whole) && AllDigits(frac) && (whole != [] || frac != []) {
      if whole != [] { assert IsDigit(b[0]); } else { assert IsDigit(b[k + 1]); }
    } else if !AllDigits(whole) {
      var i :| 0 <= i < |whole| && !IsDigit(whole[i]);
      assert b[i] == whole[i];
    } else if !AllDigits(frac) {
      var i :| 0 <= i < |frac| && !IsDigit(frac[i]);
      assert b[k + 1 + i] == frac[i];
    } else {
      assert |b| == 1;
    }
  }

  /** The sign a negative amount is written with. */
  function Sign(neg: bool): string {
    if neg then "-" else ""
  }

  /** A leading minus sign negates the reading of the digits after it. */
  lemma SignedParse(neg: bool, b: string, m: real)
    requires b != [] && IsDigit(b[0])
    requires ParseUnsigned(b) == Some(m)
    ensures ParseAmount(Sign(neg) + b) == Some(if neg then -m else m)
  {
    var s := Sign(neg) + b;
    if neg { assert s[1..] == b; } else { assert s == b; }
  }

  /** An optional sign, "+" or "-", in front of a well-formed unsigned
      decimal ("+7", "-.5", "12.") reads as that decimal's value, negated
      for "-". */
  lemma SignedAmount(sign: string, b: string)
    requires sign == "" || sign == "+" || sign == "-"
    requires WellFormedUnsigned(b)
    ensures ParseUnsigned(b).Some?
    ensures ParseAmount(sign + b)
      == Some(if sign == "-" then -ParseUnsigned(b).value else ParseUnsigned(b).value)
  {
    assert b != [] && (IsDigit(b[0]) || b[0] == '.');
    assert Unsigned(b) == b;
    ParseAmountAccepts(b);
    if sign != "" {
      assert (sign + b)[0] == sign[0];
      assert (sign + b)[1..] == b;
    } else {
      assert sign + b == b;
    }
  }

  /** Digits without a point ("150") read as the number they denote. */
  lemma ParseUnsignedDigits(d: string)
    requires AllDigits(d) && d != []
    ensures ParseUnsigned(d) == Some(DigitsValue(d))
  {
    assert forall i :: 0 <= i < |d| ==> d[i] != '.' by {
      forall i | 0 <= i < |d| ensures d[i] != '.' { assert IsDigit(d[i]); }
    }
    NoPointParts(d);
  }

  /** Digits, a point and digits, with at least one digit on either side
      ("1.25", "5." or ".5"), read as the number they denote. */
  lemma ParseUnsignedDecimal(whole: string, frac: string)
    requires AllDigits(whole) && AllDigits(frac) && (whole != [] || frac != [])
    ensures ParseUnsigned(whole + "." + frac) == Some(DigitsValue(whole) + FracValue(frac))
  {
    SplitAtPoint(whole, frac);
  }

  // ---------------------------------------------------------------------
  // Writing an amount, the inverse of the reading
  // ---------------------------------------------------------------------

  /** The decimal digits of `n`, without leading zeros. */
  function NatDigits(n: nat): (s: string)
    ensures s != [] && AllDigits(s)
  {
    if n < 10 then [DigitChar(n)] else NatDigits(n / 10) + [DigitChar(n % 10)]
  }

  lemma {:induction false} DigitsAppend(acc: real, a: string, d: char)
    requires AllDigits(a) && IsDigit(d)
    ensures AllDigits(a + [d])
    ensures DigitsFrom(acc, a + [d]) == DigitsFrom(acc, a) * 10.0 + DigitValue(d) as real
    decreases a
  {
    if a == [] {
      assert (a + [d])[1..] == [];
    } else {
      assert (a + [d])[0] == a[0];
      assert (a + [d])[1..] == a[1..] + [d];
      DigitsAppend(acc * 10.0 + DigitValue(a[0]) as real, a[1..], d);
    }
  }

  lemma {:induction false} NatDigitsValue(n: nat)
    ensures DigitsValue(NatDigits(n)) == n as real
  {
    if n < 10 {
      var s := NatDigits(n);
      assert s == [DigitChar(n)];
      assert s[1..] == [];
      assert DigitsFrom(0.0, s) == DigitsFrom(DigitValue(s[0]) as real, []);
    } else {
      NatDigitsValue(n / 10);
      DigitsAppend(0.0, NatDigits(n / 10), DigitChar(n % 10));
      assert n == (n / 10) * 10 + n % 10;
    }
  }

  /** An amount of cents written out: a sign when negative, the
      whole units, a point and two digits of cents. */
  function FormatCents(cents: int): string {
    var a := if cents < 0 then -cents else cents;
    var c := a % 100;
    Sign(cents < 0) + (NatDigits(a / 100) + "." + [DigitChar(c / 10), DigitChar(c % 10)])
  }

  /** Two digits of cents read as the fraction they denote. */
  lemma CentsFraction(c: nat)
    requires c < 100
    ensures FracValue([DigitChar(c / 10), DigitChar(c % 10)]) == c as real / 100.0
  {
    var frac := [DigitChar(c / 10), DigitChar(c % 10)];
    assert frac[1..] == [frac[1]];
    assert frac[1..][1..] == [];
    assert FracValue(frac[1..]) == (c % 10) as real / 10.0;
    assert FracValue(frac) == ((c / 10) as real + (c % 10) as real / 10.0) / 10.0;
    assert c == (c / 10) * 10 + c % 10;
  }

  /** The unsigned part of a formatted amount reads back as its value. */
  lemma FormatUnsignedValue(a: nat)
    ensures ParseUnsigned(NatDigits(a / 100) + "." + [DigitChar(a % 100 / 10), DigitChar(a % 100 % 10)])
         == Some(a as real / 100.0)
  {
    var c := a % 100;
    var whole := NatDigits(a / 100);
    var frac := [DigitChar(c / 10), DigitChar(c % 10)];
    ParseUnsignedDecimal(whole, frac);
    NatDigitsValue(a / 100);
    CentsFraction(c);
    assert a == (a / 100) * 100 + c;
  }

  /** A formatted amount reads back as its value. */
  lemma FormatCentsParses(cents: int)
    ensures ParseAmount(FormatCents(cents)) == Some(cents as real / 100.0)
  {
    var a := if cents < 0 then -cents else cents;
    var c := a % 100;
    var b := NatDigits(a / 100) + "." + [DigitChar(c / 10), DigitChar(c % 10)];
    FormatUnsignedValue(a);
    assert b[0] == NatDigits(a / 100)[0];
    SignedParse(cents < 0, b, a as real / 100.0);
  }

  /** A leading `$` in front of text without one is removed. */
  lemma DollarPrefixRemoved(s: string)
    requires '$' !in s
    ensures StripDollar("$" + s) == s
  {
    StripDollarUnchanged(s);
    StripDollarConcat("$", s);
    assert StripDollar("$") == "" by { assert "$"[1..] == ""; }
    assert "" + s == s;
  }

  /** An amount written by `FormatCents` behind a `$` reads back as its
      value once the `$` is removed. */
  lemma FormatThenParse(cents: int)
    ensures ParseAmount(StripDollar("$" + FormatCents(cents))) == Some(cents as real / 100.0)
  {
    FormatCentsParses(cents);
    var a := if cents < 0 then -cents else cents;
    var c := a % 100;
    var digits := NatDigits(a / 100) + "." + [DigitChar(c / 10), DigitChar(c % 10)];
    assert '$' !in digits;
    assert FormatCents(cents) == Sign(cents < 0) + digits;
    DollarPrefixRemoved(FormatCents(cents));
  }
}
