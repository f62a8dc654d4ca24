/** Python's `int(text)` and `str(n)` for base-10 integers. */
module PyInt {
  import opened Prelude
  import opened PyText

  predicate IsDigit(c: char) {
    '0' <= c <= '9'
  }

  predicate AllDigits(s: string) {
    forall i :: 0 <= i < |s| ==> IsDigit(s[i])
  }

  function DigitChar(d: nat): (c: char)
    requires d < 10
    ensures IsDigit(c)
  {
    ('0' as int + d) as char
  }

  /** The value of a decimal numeral, most significant digit first. */
  function DigitsValue(s: string): nat
    requires AllDigits(s)
    decreases |s|
  {
    if |s| == 0 then 0 else DigitsValue(s[..|s| - 1]) * 10 + (s[|s| - 1] as int - '0' as int)
  }

  /** `str(n)` for a natural number: a non-empty numeral whose value is `n`. */
  function NatToString(n: nat): (s: string)
    ensures |s| > 0 && AllDigits(s)
    ensures DigitsValue(s) == n
    decreases n
  {
    if n < 10 then [DigitChar(n)]
    else
      var high := NatToString(n / 10);
      var s := high + [DigitChar(n % 10)];
      assert s[..|s| - 1] == high;
      s
  }

  /** `str(i)`. */
  function IntToString(i: int): string {
    if i < 0 then "-" + NatToString(-i) else NatToString(i)
  }

  /** A stripped integer literal: an optional sign, then one or more
      decimal digits. */
  function ParseNumeral(t: string): (r: Option<int>)
    ensures r.Some? ==> exists k :: 0 <= k < |t| && IsDigit(t[k])
  {
    if |t| > 0 && (t[0] == '+' || t[0] == '-') then
      var digits := t[1..];
      if |digits| > 0 && AllDigits(digits) then
        assert IsDigit(t[1]);
        var magnitude: int := DigitsValue(digits);
        Some(if t[0] == '-' then -magnitude else magnitude)
      else None
    else if |t| > 0 && AllDigits(t) then
      assert IsDigit(t[0]);
      Some(DigitsValue(t))
    else None
  }

  /** `int(text)`: the literal left after stripping whitespace; `None` where
      Python raises `ValueError`. */
  function ParseInt(text: string): (r: Option<int>)
    ensures r.Some? ==> exists k :: 0 <= k < |text| && IsDigit(text[k])
  {
    var t := Strip(text);
    StripKeepsCharacters(text);
    var r := ParseNumeral(t);
    assert r.Some? ==> exists k :: 0 <= k < |text| && IsDigit(text[k]) by {
      if r.Some? {
        var k :| 0 <= k < |t| && IsDigit(t[k]);
        assert t[k] in text;
      }
    }
    r
  }

  /** A signed numeral: an optional `+` or `-`, then one or more digits,
      whose value is that of the digits, negated after a `-`. */
  predicate SignedNumeral(t: string, sign: string, digits: string, n: int) {
    && t == sign + digits
    && (sign == "" || sign == "+" || sign == "-")
    && |digits| > 0 && AllDigits(digits)
    && n == (if sign == "-" then -(DigitsValue(digits) as int) else DigitsValue(digits))
  }

  lemma NumeralIsSigned(t: string, n: int)
    requires ParseNumeral(t) == Some(n)
    ensures exists sign: string, digits: string :: SignedNumeral(t, sign, digits, n)
  {
    if t[0] == '+' || t[0] == '-' {
      var digits := t[1..];
      assert |digits| > 0 && AllDigits(digits);
      assert t == [t[0]] + digits;
      assert SignedNumeral(t, [t[0]], digits, n);
    } else {
      assert |t| > 0 && AllDigits(t);
      assert t == "" + t;
      assert SignedNumeral(t, "", t, n);
    }
  }

  lemma SignedIsNumeral(t: string, sign: string, digits: string, n: int)
    requires SignedNumeral(t, sign, digits, n)
    ensures ParseNumeral(t) == Some(n)
  {
    if sign == "" {
      assert t == digits;
      assert IsDigit(t[0]);
    } else {
      assert t[0] == sign[0];
      assert t[1..] == digits;
    }
  }

  /** `int(text)` succeeds exactly when the stripped text is an optional
      `+` or `-` followed by one or more decimal digits, and its value is
      that of the digits, negated after a `-`. */
  lemma ParseIntAccepts(text: string, n: int)
    ensures ParseInt(text) == Some(n) <==>
      exists sign: string, digits: string :: SignedNumeral(Strip(text), sign, digits, n)
  {
    var t := Strip(text);
    assert ParseInt(text) == ParseNumeral(t);
    if ParseNumeral(t) == Some(n) {
      NumeralIsSigned(t, n);
    }
    if exists sign: string, digits: string :: SignedNumeral(t, sign, digits, n) {
      var sign: string, digits: string :| SignedNumeral(t, sign, digits, n);
      SignedIsNumeral(t, sign, digits, n);
    }
  }

  /** An ASCII separator character is not whitespace to `int()`: a text
      that starts with one is refused, whatever follows. */
  lemma SeparatorIsNotSkipped(c: char, rest: string)
    requires '\U{1C}' <= c <= '\U{1F}'
    ensures ParseInt([c] + rest) == None
  {
    var u := [c] + rest;
    assert u[0] == c && !IsIntSpace(c);
    assert TrimStart(u) == u;
    var t := TrimEnd(u);
    assert |t| > 0 && t[0] == c;
    assert Strip(u) == t;
    NumeralStartsWithSignOrDigit(t);
    assert ParseInt(u) == ParseNumeral(t);
  }

  /** A numeral starts with a sign or a digit. */
  lemma NumeralStartsWithSignOrDigit(t: string)
    requires |t| > 0 && t[0] != '+' && t[0] != '-' && !IsDigit(t[0])
    ensures ParseNumeral(t) == None
  {
    assert !AllDigits(t);
  }

  /** `int(str(i)) == i`. */
  lemma ParseIntRoundTrip(i: int)
    ensures ParseInt(IntToString(i)) == Some(i)
  {
    IntToStringHasNoSpaces(i);
    StripWithoutSpaces(IntToString(i));
    NumeralRoundTrip(i);
  }

  lemma IntToStringHasNoSpaces(i: int)
    ensures forall k :: 0 <= k < |IntToString(i)| ==> !IsIntSpace(IntToString(i)[k])
  {
    var s := IntToString(i);
    var digits := NatToString(if i < 0 then -i else i);
    forall k | 0 <= k < |s| ensures !IsIntSpace(s[k]) {
      if i < 0 && k > 0 { assert s[k] == digits[k - 1]; }
    }
  }

  lemma NumeralRoundTrip(i: int)
    ensures ParseNumeral(IntToString(i)) == Some(i)
  {
    var s := IntToString(i);
    var digits := NatToString(if i < 0 then -i else i);
    if i < 0 {
      assert s[1..] == digits;
    } else {
      assert IsDigit(s[0]);
    }
  }
}
