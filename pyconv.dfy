/**
 * Python's `int(text)` and `float(text)` on strings with ASCII digits:
 * surrounding whitespace is ignored, a sign may lead, single underscores
 * may separate digits (PEP 515), and anything that is not a literal makes
 * the conversion fail (Python raises `ValueError`, here `None`).
 */
module PyConv {
  import opened Strs

  predicate AllDigits(s: string) {
    |s| > 0 && forall i :: 0 <= i < |s| ==> IsDigit(s[i])
  }

  predicate IsSign(c: char) {
    c == '+' || c == '-'
  }

  /**
   * Digits in groups: digits and underscores, starting and ending with a
   * digit, every underscore followed by a digit (`1_000`, not `1__0`, `_1`
   * or `1_`).
   */
  predicate GroupedDigits(s: string) {
    |s| > 0 && IsDigit(s[0]) && IsDigit(s[|s| - 1])
    && (forall i :: 0 <= i < |s| ==> IsDigit(s[i]) || s[i] == '_')
    && (forall i :: 0 <= i < |s| - 1 ==> SeparatorFollowed(s, i))
  }

  /** An underscore at `i` has a digit right after it. */
  predicate SeparatorFollowed(s: string, i: int)
    requires 0 <= i < |s| - 1
  {
    s[i] == '_' ==> IsDigit(s[i + 1])
  }

  /** The text with its digit separators dropped. */
  function Ungroup(s: string): string
    decreases |s|
  {
    if |s| == 0 then ""
    else
      var init := Ungroup(s[..|s| - 1]);
      var c := s[|s| - 1];
      if c == '_' then init else init + [c]
  }

  /** Dropping the underscores of digits and underscores leaves only digits. */
  lemma {:induction false} UngroupOnlyDigits(s: string)
    requires forall i :: 0 <= i < |s| ==> IsDigit(s[i]) || s[i] == '_'
    ensures forall i :: 0 <= i < |Ungroup(s)| ==> IsDigit(Ungroup(s)[i])
    decreases |s|
  {
    if |s| > 0 {
      UngroupOnlyDigits(s[..|s| - 1]);
    }
  }

  /** Dropping the separators of grouped digits leaves digits only. */
  lemma UngroupDigits(s: string)
    requires GroupedDigits(s)
    ensures AllDigits(Ungroup(s))
  {
    UngroupOnlyDigits(s);
    assert s == s[..|s| - 1] + [s[|s| - 1]];
  }

  /** Text without underscores is its own ungrouped form. */
  lemma {:induction false} UngroupFree(s: string)
    requires '_' !in s
    ensures Ungroup(s) == s
    decreases |s|
  {
    if |s| > 0 {
      assert '_' !in s[..|s| - 1];
      UngroupFree(s[..|s| - 1]);
    }
  }

  /** Plain digits are grouped digits with no separator. */
  lemma DigitsGrouped(s: string)
    requires AllDigits(s)
    ensures GroupedDigits(s) && Ungroup(s) == s
  {
    UngroupFree(s);
  }

  /** The value of grouped digits. */
  function GroupedValue(s: string): nat
    requires GroupedDigits(s)
  {
    UngroupDigits(s);
    DigitsValue(Ungroup(s))
  }

  /** `int(text)` for a decimal literal: optional sign, then grouped digits. */
  function ParseInt(text: string): Option<int> {
    var s := StripWs(text);
    if |s| > 0 && IsSign(s[0]) && GroupedDigits(s[1..]) then
      var v: int := GroupedValue(s[1..]);
      Some(if s[0] == '-' then -v else v)
    else if GroupedDigits(s) then Some(GroupedValue(s))
    else None
  }

  lemma {:induction false} UngroupAppend(a: string, b: string)
    ensures Ungroup(a + b) == Ungroup(a) + Ungroup(b)
    decreases |b|
  {
    if |b| > 0 {
      var b' := b[..|b| - 1];
      assert (a + b)[..|a + b| - 1] == a + b';
      UngroupAppend(a, b');
    } else {
      assert a + b == a;
    }
  }

  /** Text that starts and ends with a digit has no whitespace to strip. */
  lemma DigitEnds(s: string)
    requires |s| > 0 && IsDigit(s[0]) && IsDigit(s[|s| - 1])
    ensures StripWs(s) == s
  {
    StripNone(s, Whitespace);
  }

  /**
   * A single underscore between digits does not change the value:
   * `int("1_000") == int("1000")`.
   */
  lemma ParseIntSeparator(x: string, y: string)
    requires AllDigits(x) && AllDigits(y)
    ensures ParseInt(x + "_" + y) == ParseInt(x + y) == Some(DigitsValue(x + y))
  {
    var s := x + "_" + y;
    SeparatorGrouped(x, y);
    ConcatDigits(x, y);
    DigitsGrouped(x + y);
    DigitEnds(s);
    DigitEnds(x + y);
    ParseIntUnsigned(s);
    ParseIntUnsigned(x + y);
  }

  lemma ConcatDigits(x: string, y: string)
    requires AllDigits(x) && AllDigits(y)
    ensures AllDigits(x + y)
  {
    forall i | 0 <= i < |x + y| ensures IsDigit((x + y)[i]) {
      if i < |x| { assert (x + y)[i] == x[i]; } else { assert (x + y)[i] == y[i - |x|]; }
    }
  }

  lemma SeparatorGrouped(x: string, y: string)
    requires AllDigits(x) && AllDigits(y)
    ensures GroupedDigits(x + "_" + y) && Ungroup(x + "_" + y) == x + y
  {
    var s := x + "_" + y;
    forall i | 0 <= i < |s| && i != |x| ensures IsDigit(s[i]) {
      if i < |x| { assert s[i] == x[i]; } else { assert s[i] == y[i - |x| - 1]; }
    }
    assert s[|x|] == '_' && s[|x| + 1] == y[0];
    assert s[0] == x[0] && s[|s| - 1] == y[|y| - 1];
    DigitsGrouped(x);
    DigitsGrouped(y);
    UngroupAppend(x + "_", y);
    UngroupAppend(x, "_");
    assert Ungroup("_") == "" by { assert "_"[..0] == ""; }
  }

  /** Doubled, leading and trailing separators are refused. */
  lemma ParseIntBadSeparator(x: string, y: string)
    requires AllDigits(x) && AllDigits(y)
    ensures ParseInt(x + "__" + y).None?
    ensures ParseInt("_" + x).None? && ParseInt(x + "_").None?
  {
    var s := x + "__" + y;
    DigitEnds(s);
    assert s[|x|] == '_' && s[|x| + 1] == '_';
    assert !SeparatorFollowed(s, |x|);
    assert !IsSign(s[0]) by { assert s[0] == x[0]; }
    var l := "_" + x;
    StripNone(l, Whitespace);
    assert !IsSign(l[0]) && !GroupedDigits(l);
    var r := x + "_";
    StripNone(r, Whitespace);
    assert !IsSign(r[0]) by { assert r[0] == x[0]; }
    assert !GroupedDigits(r);
  }

  /** `int` of a stripped `-` and grouped digits. */
  lemma ParseIntSigned(s: string)
    requires StripWs(s) == s && |s| > 0 && s[0] == '-' && GroupedDigits(s[1..])
    ensures ParseInt(s) == Some(0 - GroupedValue(s[1..]))
  { }

  /** `int` of stripped grouped digits. */
  lemma ParseIntUnsigned(s: string)
    requires StripWs(s) == s && GroupedDigits(s)
    ensures ParseInt(s) == Some(GroupedValue(s))
  { }

  /** `int(str(n)) == n`. */
  lemma ParseIntStr(n: int)
    ensures ParseInt(IntToStr(n)) == Some(n)
  {
    if n < 0 {
      ParseIntNegInt(n);
    } else {
      ParseIntNatStr(n);
    }
  }

  lemma ParseIntNegInt(n: int)
    requires n < 0
    ensures ParseInt(IntToStr(n)) == Some(n)
  {
    DigitsOfNat(-n);
    ParseIntNegDigits(NatToStr(-n), -n);
  }

  lemma ParseIntNatStr(m: nat)
    ensures ParseInt(NatToStr(m)) == Some(m)
  {
    DigitsOfNat(m);
    ParseIntDigits(NatToStr(m), m);
  }

  /** `int` of a run of digits is their value. */
  lemma ParseIntDigits(d: string, v: nat)
    requires AllDigits(d) && DigitsValue(d) == v
    ensures ParseInt(d) == Some(v)
  {
    DigitEnds(d);
    DigitsGrouped(d);
    ParseIntUnsigned(d);
  }

  /** `int` of `-` and a run of digits is their value negated. */
  lemma ParseIntNegDigits(d: string, v: nat)
    requires AllDigits(d) && DigitsValue(d) == v
    ensures ParseInt("-" + d) == Some(0 - v)
  {
    NegativeText(d);
    ParseIntSigned("-" + d);
  }

  lemma NegativeText(d: string)
    requires AllDigits(d)
    ensures var t := "-" + d;
      StripWs(t) == t && |t| > 0 && t[0] == '-' && t[1..] == d
      && GroupedDigits(d) && GroupedValue(d) == DigitsValue(d)
  {
    var t := "-" + d;
    DigitsGrouped(d);
    assert t[1..] == d;
    StripNone(t, Whitespace);
  }

  /** Whitespace around a literal does not change what `int` makes of it. */
  lemma ParseIntPadded(pre: string, s: string, post: string)
    requires forall i :: 0 <= i < |pre| ==> pre[i] in Whitespace
    requires forall i :: 0 <= i < |post| ==> post[i] in Whitespace
    requires |s| > 0 && s[0] !in Whitespace && s[|s| - 1] !in Whitespace
    ensures ParseInt(pre + s + post) == ParseInt(s)
  {
    StripBetween(pre, s, post, Whitespace);
    StripNone(s, Whitespace);
  }

  // ---------------------------------------------------------------------
  // float

  /** Grouped digits, optionally with a fraction: `1`, `1.`, `1.5`, `.5`, `1_000.2_5`. */
  predicate DecimalPart(s: string) {
    GroupedDigits(s)
    || (exists k :: 0 <= k < |s| && s[k] == '.' && (GroupedDigits(s[..k]) || GroupedDigits(s[k + 1..]))
         && (k == 0 || GroupedDigits(s[..k])) && (k == |s| - 1 || GroupedDigits(s[k + 1..])))
  }

  /** An exponent: `e` or `E`, an optional sign, digits. */
  predicate ExponentPart(s: string) {
    |s| >= 2 && (s[0] == 'e' || s[0] == 'E')
    && (GroupedDigits(s[1..]) || (IsSign(s[1]) && GroupedDigits(s[2..])))
  }

  /** An unsigned float literal: a decimal part and an optional exponent, or inf / infinity / nan. */
  predicate UnsignedFloat(s: string) {
    var l := Lower(s);
    l == "inf" || l == "infinity" || l == "nan"
    || DecimalPart(s)
    || exists k :: 0 < k < |s| && DecimalPart(s[..k]) && ExponentPart(s[k..])
  }

  predicate FloatLiteral(s: string) {
    UnsignedFloat(s) || (|s| > 0 && IsSign(s[0]) && UnsignedFloat(s[1..]))
  }

  /**
   * `float(text)`: the stripped literal, without its digit separators, when
   * `text` is one.  The value is carried as that text (see `PyData.VFloat`).
   */
  function ParseFloat(text: string): Option<string> {
    var s := StripWs(text);
    if FloatLiteral(s) then Some(Ungroup(s)) else None
  }

  /** Whatever `int` accepts, `float` accepts too. */
  lemma IntIsFloat(text: string)
    requires ParseInt(text).Some?
    ensures ParseFloat(text).Some?
  {
    var s := StripWs(text);
    if |s| > 0 && IsSign(s[0]) && GroupedDigits(s[1..]) {
      assert DecimalPart(s[1..]);
    } else {
      assert DecimalPart(s);
    }
  }

  /** `float(str(n))` is the integer's own text. */
  lemma ParseFloatStr(n: int)
    ensures ParseFloat(IntToStr(n)) == Some(IntToStr(n))
  {
    ParseIntStr(n);
    IntIsFloat(IntToStr(n));
    IntToStrStripped(n);
    var d := NatToStr(if n < 0 then -n else n);
    assert '_' !in IntToStr(n) by {
      assert n < 0 ==> IntToStr(n) == "-" + d;
      assert n >= 0 ==> IntToStr(n) == d;
    }
    UngroupFree(IntToStr(n));
  }

  /** The text of an integer has no whitespace to strip. */
  lemma IntToStrStripped(n: int)
    ensures StripWs(IntToStr(n)) == IntToStr(n)
  {
    var d := NatToStr(if n < 0 then -n else n);
    assert d[0] !in Whitespace && d[|d| - 1] !in Whitespace;
    StripNone(IntToStr(n), Whitespace);
  }

  // ---------------------------------------------------------------------
  // int() of a float

  function Pow10(e: nat): (r: nat)
    ensures r >= 1
  {
    if e == 0 then 1 else 10 * Pow10(e - 1)
  }

  /** Only decimal digits, possibly none. */
  predicate Digits(s: string) {
    forall i :: 0 <= i < |s| ==> IsDigit(s[i])
  }

  /**
   * `int(x)` for a float `x` carried as its text: the value truncated
   * toward zero; infinity raises `OverflowError`, NaN `ValueError`.  The
   * text is a mantissa with an optional fraction, then an optional
   * exponent.  The decimal point moves by the exponent, and truncation
   * drops the digits that end up after it.
   */
  function TruncFloat(text: string): Result<int> {
    var neg := |text| > 0 && text[0] == '-';
    var rest := if |text| > 0 && IsSign(text[0]) then text[1..] else text;
    var l := Lower(rest);
    if l == "inf" || l == "infinity" then Err("OverflowError: cannot convert float infinity to integer")
    else if l == "nan" then Err("ValueError: cannot convert float NaN to integer")
    else
      var parts := Split(l, 'e');
      var exp := if |parts| == 1 then Some(0) else if |parts| == 2 then ParseInt(parts[1]) else None;
      var mant := Split(parts[0], '.');
      if exp.None? || |mant| > 2 then Err("ValueError: not a float")
      else
        var digits := mant[0] + (if |mant| == 2 then mant[1] else "");
        if |digits| == 0 || !Digits(digits) then Err("ValueError: not a float")
        else
          var t := Truncated(digits, |mant[0]| + exp.value);
          Ok(if neg then 0 - t else t)
  }

  /** The whole part of the digits with the decimal point after the first `kept` of them. */
  function Truncated(digits: string, kept: int): nat
    requires Digits(digits)
  {
    if kept >= |digits| then DigitsValue(digits) * Pow10(kept - |digits|)
    else if kept <= 0 then 0
    else DigitsValue(digits[..kept])
  }

  /** The text of a number without exponent: digits and points only. */
  predicate NumberChars(s: string) {
    forall i :: 0 <= i < |s| ==> IsDigit(s[i]) || s[i] == '.'
  }

  lemma NumberParts(d: string, frac: string)
    requires |d| > 0 && Digits(d) && Digits(frac)
    ensures var rest := d + "." + frac;
      Lower(rest) == rest && Split(rest, 'e') == [rest] && Split(rest, '.') == [d, frac]
      && rest != "inf" && rest != "infinity" && rest != "nan"
  {
    var rest := d + "." + frac;
    assert NumberChars(rest) by {
      forall i | 0 <= i < |rest| ensures IsDigit(rest[i]) || rest[i] == '.' {
        if i < |d| { assert rest[i] == d[i]; }
        else if i > |d| { assert rest[i] == frac[i - |d| - 1]; }
      }
    }
    assert Lower(rest) == rest;
    assert 'e' !in rest;
    SplitFree(rest, 'e');
    assert rest == d + ['.'] + frac;
    assert '.' !in d && '.' !in frac;
    SplitPrefix(d, frac, '.');
    SplitFree(frac, '.');
    assert IsDigit(rest[0]);
  }

  /** A leading minus sign, or none, before text that starts with a digit. */
  lemma SignedText(negative: bool, rest: string)
    requires |rest| > 0 && IsDigit(rest[0])
    ensures var text := (if negative then "-" else "") + rest;
      |text| > 0 && (text[0] == '-') == negative
      && (if IsSign(text[0]) then text[1..] else text) == rest
  {
    var text := (if negative then "-" else "") + rest;
    if negative {
      assert text[0] == '-' && text[1..] == rest;
    } else {
      assert text == rest;
      assert rest[0] != '+' && rest[0] != '-';
    }
  }

  /** The digits of `m` followed by a fraction, truncated after the digits of `m`. */
  lemma TruncatedWhole(m: nat, frac: string)
    requires Digits(frac)
    ensures Digits(NatToStr(m) + frac)
    ensures Truncated(NatToStr(m) + frac, |NatToStr(m)|) == m
  {
    var d := NatToStr(m);
    var digits := d + frac;
    assert Digits(digits) by {
      forall i | 0 <= i < |digits| ensures IsDigit(digits[i]) {
        if i < |d| { assert digits[i] == d[i]; }
        else { assert digits[i] == frac[i - |d|]; }
      }
    }
    assert digits[..|d|] == d;
    DigitsOfNat(m);
    if frac == [] {
      assert digits == d;
    }
  }

  /**
   * `int(float)` truncates toward zero: a float written with the digits of
   * `m`, any fraction and a sign converts to `m`, or `-m` when negative.
   */
  lemma TruncTowardZero(negative: bool, m: nat, frac: string)
    requires Digits(frac)
    ensures TruncFloat((if negative then "-" else "") + NatToStr(m) + "." + frac) == Ok(if negative then 0 - m else m)
  {
    var d := NatToStr(m);
    var rest := d + "." + frac;
    var text := (if negative then "-" else "") + NatToStr(m) + "." + frac;
    assert text == (if negative then "-" else "") + rest;
    assert IsDigit(rest[0]) by {
      assert rest[0] == d[0];
    }
    SignedText(negative, rest);
    NumberParts(d, frac);
    TruncatedWhole(m, frac);
    TruncFloatOf(text, negative, rest, d, frac, m);
  }

  /** `TruncFloat` on a signed `d.frac` whose parts are already known. */
  lemma TruncFloatOf(text: string, negative: bool, rest: string, d: string, frac: string, m: nat)
    requires |text| > 0 && (text[0] == '-') == negative && (if IsSign(text[0]) then text[1..] else text) == rest
    requires Lower(rest) == rest && Split(rest, 'e') == [rest] && Split(rest, '.') == [d, frac]
    requires rest != "inf" && rest != "infinity" && rest != "nan"
    requires |d + frac| > 0 && Digits(d + frac) && Truncated(d + frac, |d|) == m
    ensures TruncFloat(text) == Ok(if negative then 0 - m else m)
  {
    var parts := Split(Lower(rest), 'e');
    assert parts == [rest];
    var mant := Split(parts[0], '.');
    assert mant == [d, frac];
    assert mant[0] + (if |mant| == 2 then mant[1] else "") == d + frac;
    assert |mant[0]| + 0 == |d|;
  }

  /** A whole-number float converts to that number: `int(float(n)) == n`. */
  lemma TruncWhole(n: int)
    ensures TruncFloat(IntToStr(n) + ".0") == Ok(n)
  {
    TruncTowardZero(n < 0, if n < 0 then -n else n, "0");
    assert IntToStr(n) + ".0" == (if n < 0 then "-" else "") + NatToStr(if n < 0 then -n else n) + "." + "0";
  }
}
