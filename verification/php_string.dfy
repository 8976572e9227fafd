/**
 * The two PHP string primitives the memory-limit parser is built from:
 * `str_replace` with a one-character search string and an empty replacement,
 * and the `(float)` cast of a string, which reads the leading numeral and
 * ignores the rest (a string with no leading numeral casts to 0).
 *
 * Floats are modelled as exact reals: the cast yields the decimal value of
 * the numeral it reads.
 */
module PhpString {
  import opened Wrappers

  predicate IsDigit(c: char) { '0' <= c <= '9' }

  predicate AllDigits(s: string) { forall i :: 0 <= i < |s| ==> IsDigit(s[i]) }

  /** The characters PHP skips in front of a leading-numeric string: space, \t, \n, \r, \v and \f. */
  predicate IsWhitespace(c: char) {
    c == ' ' || c == '\t' || c == '\n' || c == '\r' || c as int == 11 || c as int == 12
  }

  /** Characters that would extend a numeral if they followed its digits. */
  predicate ContinuesNumeral(c: char) { IsDigit(c) || c == '.' || c == 'e' || c == 'E' }

  // ---------------------------------------------------------------------------
  // str_replace(c, '', s)
  // ---------------------------------------------------------------------------

  /** `s` with every occurrence of `c` deleted: no `c` is left and every other character keeps its count. */
  function RemoveChar(s: string, c: char): (r: string)
    ensures c !in r
    ensures forall x :: x != c ==> multiset(r)[x] == multiset(s)[x]
  {
    if s == [] then []
    else
      assert s == s[..|s| - 1] + [s[|s| - 1]];
      RemoveChar(s[..|s| - 1], c) + (if s[|s| - 1] == c then [] else [s[|s| - 1]])
  }

  /** Deletion works piecewise, so the characters that remain keep their order. */
  lemma {:induction false} RemoveCharAppend(a: string, b: string, c: char)
    ensures RemoveChar(a + b, c) == RemoveChar(a, c) + RemoveChar(b, c)
    decreases |b|
  {
    if b == [] {
      assert a + b == a;
    } else {
      var b' := b[..|b| - 1];
      assert (a + b)[..|a + b| - 1] == a + b';
      RemoveCharAppend(a, b', c);
    }
  }

  /** A string without `c` is left as it is. */
  lemma {:induction false} RemoveCharAbsent(s: string, c: char)
    requires c !in s
    ensures RemoveChar(s, c) == s
    decreases |s|
  {
    if s != [] {
      assert s == s[..|s| - 1] + [s[|s| - 1]];
      RemoveCharAbsent(s[..|s| - 1], c);
    }
  }

  /** Deleting a character the prefix does not contain only touches the tail after it. */
  lemma KeepPrefix(d: string, tail: string, c: char)
    requires c !in d
    ensures RemoveChar(d + tail, c) == d + RemoveChar(tail, c)
  {
    RemoveCharAppend(d, tail, c);
    RemoveCharAbsent(d, c);
  }

  /** Deleting the two copies of `c` that separate and end two c-free strings joins them. */
  lemma DeleteSeparators(d: string, b: string, c: char)
    requires c !in d && c !in b
    ensures RemoveChar(d + [c] + b + [c], c) == d + b
  {
    var m: string := [c];
    assert RemoveChar(m, c) == [] by {
      assert m[..0] == [];
    }
    assert RemoveChar(b + m, c) == b by {
      KeepPrefix(b, m, c);
      assert b + [] == b;
    }
    assert RemoveChar(m + (b + m), c) == b by {
      RemoveCharAppend(m, b + m, c);
      assert [] + b == b;
    }
    assert d + m + b + m == d + (m + (b + m));
    KeepPrefix(d, m + (b + m), c);
  }

  // ---------------------------------------------------------------------------
  // Decimal digits
  // ---------------------------------------------------------------------------

  function DigitValue(c: char): (d: nat)
    requires IsDigit(c)
    ensures d < 10
  {
    c as int - '0' as int
  }

  function DigitChar(d: nat): (c: char)
    requires d < 10
    ensures IsDigit(c) && DigitValue(c) == d
  {
    ('0' as int + d) as char
  }

  /** Length of the run of decimal digits at the start of `s`. */
  function DigitRun(s: string): (n: nat)
    ensures n <= |s|
    ensures AllDigits(s[..n])
    ensures n == |s| || !IsDigit(s[n])
  {
    if s != [] && IsDigit(s[0]) then
      var m := DigitRun(s[1..]);
      assert s[..1 + m] == [s[0]] + s[1..][..m];
      1 + m
    else 0
  }

  lemma {:induction false} DigitRunOfDigits(d: string, rest: string)
    requires AllDigits(d)
    requires rest == [] || !IsDigit(rest[0])
    ensures DigitRun(d + rest) == |d|
    decreases |d|
  {
    if d != [] {
      assert (d + rest)[1..] == d[1..] + rest;
      DigitRunOfDigits(d[1..], rest);
    }
  }

  /** The number a run of decimal digits denotes (most significant digit first). */
  function DigitsValue(d: string): nat
    requires AllDigits(d)
  {
    if d == [] then 0 else 10 * DigitsValue(d[..|d| - 1]) + DigitValue(d[|d| - 1])
  }

  function Pow10(k: nat): (p: nat)
    ensures p >= 1
  {
    if k == 0 then 1 else 10 * Pow10(k - 1)
  }

  /** The shortest decimal numeral of `n`, as PHP writes an integer. */
  function Render(n: nat): (s: string)
    ensures |s| >= 1 && AllDigits(s)
  {
    if n < 10 then [DigitChar(n)] else Render(n / 10) + [DigitChar(n % 10)]
  }

  /** Render is inverted by reading the digits back. */
  lemma {:induction false} RenderRoundTrip(n: nat)
    ensures DigitsValue(Render(n)) == n
  {
    if n >= 10 {
      var s := Render(n);
      assert s[..|s| - 1] == Render(n / 10);
      RenderRoundTrip(n / 10);
    }
  }

  // ---------------------------------------------------------------------------
  // (float) $string
  // ---------------------------------------------------------------------------

  /** The leading numeral of a string: sign, integer digits, fraction digits and a signed decimal exponent. */
  datatype Numeral = Numeral(negative: bool, intDigits: string, fracDigits: string, expNegative: bool, expDigits: string)
  {
    ghost predicate Valid() {
      AllDigits(intDigits) && AllDigits(fracDigits) && AllDigits(expDigits) && |intDigits| + |fracDigits| > 0
    }
  }

  function SkipWhitespace(s: string): (t: string)
    ensures |t| <= |s| && t == s[|s| - |t|..]
    ensures t == [] || !IsWhitespace(t[0])
  {
    if s != [] && IsWhitespace(s[0]) then SkipWhitespace(s[1..]) else s
  }

  /** An exponent part `e`/`E`, an optional sign and at least one digit; anything else adds no exponent. */
  function ScanExponent(rest: string): (r: (bool, string))
    ensures AllDigits(r.1)
    ensures r.1 == [] ==> !r.0
  {
    if |rest| >= 2 && (rest[0] == 'e' || rest[0] == 'E') then
      var signed := rest[1] == '-' || rest[1] == '+';
      var digits := if signed then rest[2..] else rest[1..];
      var n := DigitRun(digits);
      if n == 0 then (false, []) else (rest[1] == '-', digits[..n])
    else (false, [])
  }

  /** The numeral PHP reads at the start of `s`, or None when there is none. */
  function ScanNumeral(s: string): (r: Option<Numeral>)
    ensures r.Some? ==> r.value.Valid()
  {
    var t := SkipWhitespace(s);
    var negative := t != [] && t[0] == '-';
    ScanUnsigned(negative, if t != [] && (t[0] == '-' || t[0] == '+') then t[1..] else t)
  }

  /** The digits, fraction and exponent read after the sign has been taken off. */
  function ScanUnsigned(negative: bool, u: string): (r: Option<Numeral>)
    ensures r.Some? ==> r.value.Valid() && r.value.negative == negative
  {
    var i := DigitRun(u);
    var hasPoint := i < |u| && u[i] == '.';
    var afterPoint := if hasPoint then u[i + 1..] else [];
    var f := DigitRun(afterPoint);
    var rest := if hasPoint then afterPoint[f..] else u[i..];
    if i + f == 0 then None
    else
      var e := ScanExponent(rest);
      Some(Numeral(negative, u[..i], afterPoint[..f], e.0, e.1))
  }

  function NumeralValue(n: Numeral): real
    requires n.Valid()
  {
    var magnitude := Magnitude(n.intDigits, n.fracDigits, n.expNegative, n.expDigits);
    if n.negative then -magnitude else magnitude
  }

  /** intDigits.fracDigits times ten to the power of the (signed) exponent. */
  function Magnitude(intDigits: string, fracDigits: string, expNegative: bool, expDigits: string): real
    requires AllDigits(intDigits) && AllDigits(fracDigits) && AllDigits(expDigits)
  {
    var mantissa := DigitsValue(intDigits + fracDigits) as real / Pow10(|fracDigits|) as real;
    var scale := Pow10(DigitsValue(expDigits)) as real;
    if expNegative then mantissa / scale else mantissa * scale
  }

  /** PHP's `(float)` cast of a string: the value of its leading numeral, 0 when it has none. */
  function ToFloat(s: string): real {
    match ScanNumeral(s)
    case None => 0.0
    case Some(n) => NumeralValue(n)
  }

  /** A run of digits followed by text that cannot extend it is read as that integer numeral. */
  lemma ScanDigits(d: string, suffix: string)
    requires |d| > 0 && AllDigits(d)
    requires suffix == [] || !ContinuesNumeral(suffix[0])
    ensures ScanNumeral(d + suffix) == Some(Numeral(false, d, [], false, []))
  {
    var s := d + suffix;
    assert s[0] == d[0];
    assert SkipWhitespace(s) == s;
    assert ScanNumeral(s) == ScanUnsigned(false, s);
    ScanUnsignedDigits(d, suffix);
  }

  lemma ScanUnsignedDigits(d: string, suffix: string)
    requires |d| > 0 && AllDigits(d)
    requires suffix == [] || !ContinuesNumeral(suffix[0])
    ensures ScanUnsigned(false, d + suffix) == Some(Numeral(false, d, [], false, []))
  {
    var s := d + suffix;
    DigitRunOfDigits(d, suffix);
    var i := DigitRun(s);
    assert i == |d|;
    assert !(i < |s| && s[i] == '.');
    assert DigitRun([]) == 0;
    assert s[..i] == d && s[i..] == suffix;
    assert ScanExponent(suffix) == (false, []);
  }

  /** A decimal integer followed by text that cannot extend it casts to that integer ("512M" reads 512). */
  lemma ToFloatOfRender(n: nat, suffix: string)
    requires suffix == [] || !ContinuesNumeral(suffix[0])
    ensures ToFloat(Render(n) + suffix) == n as real
  {
    var d := Render(n);
    ScanDigits(d, suffix);
    IntegerMagnitude(d);
    RenderRoundTrip(n);
  }

  lemma IntegerMagnitude(d: string)
    requires AllDigits(d)
    ensures Magnitude(d, [], false, []) == DigitsValue(d) as real
  {
    assert d + [] == d;
    assert Pow10(DigitsValue([])) == 1;
  }

  /** A string whose first character cannot begin a numeral casts to 0 ("abc" reads 0). */
  lemma ToFloatOfNonNumeric(s: string)
    requires s == [] || !(IsWhitespace(s[0]) || IsDigit(s[0]) || s[0] in "+-.")
    ensures ToFloat(s) == 0.0
  {
    assert SkipWhitespace(s) == s;
    assert DigitRun(s) == 0;
  }

  /** A leading minus sign negates the numeral that follows it ("-1" reads -1). */
  lemma ToFloatOfNegation(s: string)
    requires s == [] || !(IsWhitespace(s[0]) || s[0] == '+' || s[0] == '-')
    ensures ToFloat(['-'] + s) == -ToFloat(s)
  {
    var m := ['-'] + s;
    assert SkipWhitespace(m) == m;
    assert m[1..] == s;
    assert SkipWhitespace(s) == s;
    assert ScanNumeral(m) == ScanUnsigned(true, s);
    assert ScanNumeral(s) == ScanUnsigned(false, s);
    var r := ScanUnsigned(false, s);
    if r.Some? {
      var n := r.value;
      assert ScanUnsigned(true, s) == Some(n.(negative := true));
      assert NumeralValue(n.(negative := true)) == -NumeralValue(n);
    } else {
      assert ScanUnsigned(true, s) == None;
    }
  }
}
