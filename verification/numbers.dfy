/** Decimal text for the reporting helpers: printing naturals the way
    `str(n)`, `format(n, ",")` and the one-decimal percentage format do,
    and reading them back the way `float(s)` does. */
module Numbers {
  import opened Base
  import opened Text

  predicate IsDigit(c: char) {
    '0' <= c <= '9'
  }

  predicate AllDigits(s: string)
    decreases |s|
  {
    |s| == 0 || (AllDigits(s[..|s| - 1]) && IsDigit(s[|s| - 1]))
  }

  function DigitChar(d: nat): (c: char)
    requires d < 10
    ensures IsDigit(c) && c as int - '0' as int == d
  {
    ('0' as int + d) as char
  }

  function DigitOf(c: char): (d: nat)
    requires IsDigit(c)
    ensures d < 10 && DigitChar(d) == c
  {
    c as int - '0' as int
  }

  function Pow10(k: nat): (p: nat)
    ensures p >= 1
  {
    if k == 0 then 1 else 10 * Pow10(k - 1)
  }

  /** The number a string of decimal digits spells. */
  function DigitsValue(s: string): nat
    requires AllDigits(s)
  {
    if |s| == 0 then 0 else DigitsValue(s[..|s| - 1]) * 10 + DigitOf(s[|s| - 1])
  }

  lemma {:induction false} AllDigitsAppend(a: string, b: string)
    requires AllDigits(a) && AllDigits(b)
    ensures AllDigits(a + b)
    decreases |b|
  {
    if |b| > 0 {
      AllDigitsAppend(a, b[..|b| - 1]);
      assert (a + b)[..|a + b| - 1] == a + b[..|b| - 1];
    } else {
      assert a + b == a;
    }
  }

  /** Every character of a digit string is a digit. */
  lemma {:induction false} AllDigitsPointwise(s: string)
    requires AllDigits(s)
    ensures forall i :: 0 <= i < |s| ==> IsDigit(s[i])
    decreases |s|
  {
    if |s| > 0 {
      AllDigitsPointwise(s[..|s| - 1]);
      assert forall i :: 0 <= i < |s| - 1 ==> s[i] == s[..|s| - 1][i];
    }
  }

  /** A digit string has no commas, so dropping commas keeps it. */
  lemma DigitsCommaFree(s: string)
    requires AllDigits(s)
    ensures ReplaceChar(s, ',', "") == s
  {
    AllDigitsPointwise(s);
    ReplaceCharAbsent(s, ',', "");
  }

  lemma ShiftStep(x: int, p: int, y: int, d: int)
    ensures (x * p + y) * 10 + d == x * (10 * p) + (y * 10 + d)
  {
  }

  /** Reading a + b: a's value shifted past b's digits, plus b's value. */
  lemma {:induction false} DigitsValueAppend(a: string, b: string)
    requires AllDigits(a) && AllDigits(b)
    ensures AllDigits(a + b)
    ensures DigitsValue(a + b) == DigitsValue(a) * Pow10(|b|) + DigitsValue(b)
    decreases |b|
  {
    AllDigitsAppend(a, b);
    if |b| > 0 {
      var b' := b[..|b| - 1];
      var d := DigitOf(b[|b| - 1]);
      assert (a + b)[..|a + b| - 1] == a + b';
      assert (a + b)[|a + b| - 1] == b[|b| - 1];
      DigitsValueAppend(a, b');
      assert DigitsValue(a + b) == DigitsValue(a + b') * 10 + d;
      assert DigitsValue(b) == DigitsValue(b') * 10 + d;
      ShiftStep(DigitsValue(a), Pow10(|b'|), DigitsValue(b'), d);
    } else {
      assert a + b == a;
    }
  }

  /** `str(n)`: the decimal digits of n, most significant first, without
      leading zeros. */
  function Decimal(n: nat): (s: string)
    ensures |s| > 0 && IsDigit(s[0]) && AllDigits(s)
    ensures DigitsValue(s) == n
    decreases n
  {
    if n < 10 then
      assert [DigitChar(n)][..0] == [];
      [DigitChar(n)]
    else
      var front := Decimal(n / 10);
      var s := front + [DigitChar(n % 10)];
      assert s[..|s| - 1] == front;
      s
  }

  /** A group after a thousands comma: three digits, zero-padded. */
  function Pad3(n: nat): (s: string)
    requires n < 1000
    ensures |s| == 3 && AllDigits(s) && DigitsValue(s) == n
  {
    var s := [DigitChar(n / 100), DigitChar(n / 10 % 10), DigitChar(n % 10)];
    assert s[..2] == [s[0], s[1]] && s[..2][..1] == [s[0]] && [s[0]][..0] == [];
    assert AllDigits([s[0]]) && AllDigits(s[..2]);
    assert DigitsValue([s[0]]) == n / 100;
    assert DigitsValue(s[..2]) == n / 100 * 10 + n / 10 % 10;
    assert DigitsValue(s) == (n / 100 * 10 + n / 10 % 10) * 10 + n % 10;
    s
  }

  /** `format(n, ",")`: the digits of n with a comma between groups of
      three, counted from the right. */
  function Grouped(n: nat): (s: string)
    ensures |s| > 0 && IsDigit(s[0])
    decreases n
  {
    if n < 1000 then Decimal(n)
    else Grouped(n / 1000) + "," + Pad3(n % 1000)
  }

  /** Dropping the commas from a grouped number gives digits that read back
      as the number. */
  lemma {:induction false} GroupedReadsBack(n: nat)
    ensures AllDigits(ReplaceChar(Grouped(n), ',', ""))
    ensures DigitsValue(ReplaceChar(Grouped(n), ',', "")) == n
    decreases n
  {
    if n < 1000 {
      DigitsCommaFree(Decimal(n));
    } else {
      GroupedReadsBack(n / 1000);
      GroupedCommasDropped(n);
      ThreeMoreDigits(ReplaceChar(Grouped(n / 1000), ',', ""), Pad3(n % 1000), n / 1000, n % 1000);
    }
  }

  /** Dropping the commas of a grouped numeral leaves the front group's
      digits followed by the last three. */
  lemma GroupedCommasDropped(n: nat)
    requires n >= 1000
    ensures ReplaceChar(Grouped(n), ',', "") == ReplaceChar(Grouped(n / 1000), ',', "") + Pad3(n % 1000)
  {
    var front := Grouped(n / 1000);
    var pad := Pad3(n % 1000);
    assert Grouped(n) == front + ("," + pad);
    ReplaceCharAppend(front, "," + pad, ',', "");
    ReplaceCharAppend(",", pad, ',', "");
    assert ReplaceChar(",", ',', "") == "" by {
      assert ","[1..] == "";
    }
    DigitsCommaFree(pad);
  }

  /** Three more digits multiply the value read so far by a thousand. */
  lemma ThreeMoreDigits(digits: string, pad: string, q: nat, p: nat)
    requires AllDigits(digits) && DigitsValue(digits) == q
    requires |pad| == 3 && AllDigits(pad) && DigitsValue(pad) == p
    ensures AllDigits(digits + pad) && DigitsValue(digits + pad) == q * 1000 + p
  {
    AllDigitsAppend(digits, pad);
    DigitsValueAppend(digits, pad);
    assert Pow10(3) == 1000;
  }

  // ---------------------------------------------------------------------
  // float(s)
  // ---------------------------------------------------------------------

  /** A float as the report reads it: a finite decimal, `digits` over ten
      to the power `scale` ("8062.2" is 80622 over 10), or NaN or an
      infinity. The decimal is kept exactly. */
  datatype Float = Finite(digits: int, scale: nat) | NonFinite

  const NotAFloat: Fault := ValueError("float")

  /** `float(s)`: surrounding whitespace is ignored, then an optional sign
      and a magnitude. */
  function ParseFloat(s: string): (r: Result<Float>)
    ensures r.Err? ==> r.fault == NotAFloat
  {
    ParseSigned(Strip(s))
  }

  /** An optional sign and a magnitude. */
  function ParseSigned(t: string): (r: Result<Float>)
    ensures r.Err? ==> r.fault == NotAFloat
  {
    if |t| > 0 && t[0] == '-' then Negated(ParseMagnitude(t[1..]))
    else if |t| > 0 && t[0] == '+' then ParseMagnitude(t[1..])
    else ParseMagnitude(t)
  }

  /** A minus sign flips a finite value and leaves the rest alone. */
  function Negated(r: Result<Float>): (n: Result<Float>)
    ensures r.Ok? && r.value.Finite? ==> n == Ok(Finite(-r.value.digits, r.value.scale))
    ensures !(r.Ok? && r.value.Finite?) ==> n == r
  {
    if r.Ok? && r.value.Finite? then Ok(Finite(-r.value.digits, r.value.scale)) else r
  }

  /** "nan", "inf" or "infinity" in any case, or decimal digits with at most
      one point and at least one digit; anything else raises ValueError. */
  function ParseMagnitude(body: string): (r: Result<Float>)
    ensures r.Err? ==> r.fault == NotAFloat
    ensures r.Ok? && r.value.Finite? ==> ParseUnsigned(body) == Some((r.value.digits, r.value.scale))
  {
    if SameIgnoringCase(body, "nan") || SameIgnoringCase(body, "inf") || SameIgnoringCase(body, "infinity") then Ok(NonFinite)
    else
      match ParseUnsigned(body)
      case None => Err(NotAFloat)
      case Some(v) => Ok(Finite(v.0, v.1))
  }

  /** `w.lower() == word` for a lower-case word. */
  predicate SameIgnoringCase(w: string, word: string)
    decreases |w|
  {
    |w| == |word| && (|w| == 0 || (LowerChar(w[0]) == word[0] && SameIgnoringCase(w[1..], word[1..])))
  }

  /** Digits with at most one decimal point, and at least one digit. */
  function ParseUnsigned(s: string): (r: Option<(nat, nat)>)
    ensures r.Some? ==> '.' in s || r.value.1 == 0
  {
    var dot := FirstDot(s);
    ReadParts(s[..dot], if dot < |s| then s[dot + 1..] else "")
  }

  /** A whole part and a fractional part, both digits and not both empty,
      read as all their digits over ten to the length of the fraction. */
  function ReadParts(whole: string, frac: string): (r: Option<(nat, nat)>)
    ensures r.Some? <==> AllDigits(whole) && AllDigits(frac) && |whole| + |frac| > 0
    ensures r.Some? ==> r.value.1 == |frac|
  {
    if !AllDigits(whole) || !AllDigits(frac) || |whole| + |frac| == 0 then None
    else
      AllDigitsAppend(whole, frac);
      Some((DigitsValue(whole + frac), |frac|))
  }

  /** The index of the first '.', or |s| when there is none. */
  function FirstDot(s: string): (k: nat)
    ensures k <= |s| && (k < |s| ==> s[k] == '.') && forall i :: 0 <= i < k ==> s[i] != '.'
    decreases |s|
  {
    if |s| == 0 || s[0] == '.' then 0 else 1 + FirstDot(s[1..])
  }

  /** The whole part of a value in tenths, as `.1f` prints it: with or
      without thousands commas. */
  function WholePart(a: nat, grouped: bool): (s: string)
    ensures |s| > 0 && IsDigit(s[0])
  {
    if grouped then Grouped(a / 10) else Decimal(a / 10)
  }

  /** A value in tenths, unsigned, as `.1f` prints it: the whole part, a
      point and the tenths digit. */
  function Unsigned(a: nat, grouped: bool): (s: string)
    ensures |s| >= 3 && IsDigit(s[0]) && s[|s| - 2] == '.' && IsDigit(s[|s| - 1])
  {
    WholePart(a, grouped) + "." + [DigitChar(a % 10)]
  }

  /** The sign `f"{x:.1f}"` prints: '-' when negative; with `plus` (the
      `+` format flag), '+' otherwise. */
  function SignText(t: int, plus: bool): (s: string)
    ensures s == "-" <==> t < 0
    ensures s == "+" <==> t >= 0 && plus
    ensures s == "" <==> t >= 0 && !plus
  {
    if t < 0 then "-" else if plus then "+" else ""
  }

  /** The magnitude of a value in tenths. */
  function Magnitude(t: int): (a: nat)
    ensures a == t || a == -t
  {
    if t < 0 then -t else t
  }

  /** `f"{x:.1f}"` for a value given in tenths: the sign, then the unsigned
      text. With `grouped`, the whole part carries thousands commas
      (`f"{x:,.1f}"`); with `plus`, a positive or zero value carries a '+'
      (`f"{x:+.1f}"`). */
  function Tenths(t: int, grouped: bool, plus: bool): (s: string)
    ensures |s| >= 3 && s[|s| - 2] == '.' && IsDigit(s[|s| - 1])
    ensures s[0] == '-' <==> t < 0
    ensures s[0] == '+' <==> t >= 0 && plus
  {
    SignText(t, plus) + Unsigned(Magnitude(t), grouped)
  }

  /** The unsigned text with its commas dropped is the whole part's digits,
      a point and the tenths digit. */
  lemma UnsignedCommaFree(a: nat, grouped: bool)
    ensures ReplaceChar(Unsigned(a, grouped), ',', "")
              == ReplaceChar(WholePart(a, grouped), ',', "") + "." + [DigitChar(a % 10)]
  {
    var c := DigitChar(a % 10);
    assert Unsigned(a, grouped) == WholePart(a, grouped) + ("." + [c]);
    ReplaceCharAppend(WholePart(a, grouped), "." + [c], ',', "");
    ReplaceCharAbsent("." + [c], ',', "");
  }

  /** The whole part, commas dropped, is digits spelling a / 10, so with
      the tenths digit after them they spell a. */
  lemma WholePartReadsBack(a: nat, grouped: bool)
    ensures |ReplaceChar(WholePart(a, grouped), ',', "")| > 0
    ensures AllDigits(ReplaceChar(WholePart(a, grouped), ',', ""))
    ensures DigitsValue(ReplaceChar(WholePart(a, grouped), ',', "")) * 10 + DigitOf(DigitChar(a % 10)) == a
  {
    if grouped {
      GroupedReadsBack(a / 10);
      assert WholePart(a, grouped)[0] != ',';
      assert ReplaceChar(WholePart(a, grouped), ',', "")[0] == WholePart(a, grouped)[0];
    } else {
      DigitsCommaFree(Decimal(a / 10));
    }
  }

  /** Digits, a point and one digit read as all the digits over ten. */
  lemma ReadDigitsPoint(digits: string, c: char)
    requires AllDigits(digits) && IsDigit(c)
    ensures ParseUnsigned(digits + "." + [c]) == Some((DigitsValue(digits) * 10 + DigitOf(c), 1))
  {
    SplitAtPoint(digits, c);
    assert ParseUnsigned(digits + "." + [c]) == ReadParts(digits, [c]);
    ReadWholeAndTenth(digits, c);
  }

  lemma ReadWholeAndTenth(digits: string, c: char)
    requires AllDigits(digits) && IsDigit(c)
    ensures ReadParts(digits, [c]) == Some((DigitsValue(digits) * 10 + DigitOf(c), 1))
  {
    var w := digits + [c];
    assert w[..|w| - 1] == digits;
    AllDigitsAppend(digits, [c]);
  }

  /** The first point of digits + "." + [c] is the one after the digits. */
  lemma SplitAtPoint(digits: string, c: char)
    requires AllDigits(digits)
    ensures FirstDot(digits + "." + [c]) == |digits|
    ensures (digits + "." + [c])[..|digits|] == digits
    ensures (digits + "." + [c])[|digits| + 1..] == [c]
  {
    var s := digits + "." + [c];
    assert s[|digits|] == '.';
    AllDigitsPointwise(digits);
    assert forall i :: 0 <= i < |digits| ==> s[i] == digits[i];
    FirstDotAt(s, |digits|);
  }

  lemma {:induction false} FirstDotAt(s: string, k: nat)
    requires k < |s| && s[k] == '.' && forall i :: 0 <= i < k ==> s[i] != '.'
    ensures FirstDot(s) == k
    decreases k
  {
    if k > 0 {
      FirstDotAt(s[1..], k - 1);
    }
  }

  /** Digits, a point and a digit form a magnitude: digit-led, digit-ended,
      reading as all the digits over ten. */
  lemma DigitsPointReads(digits: string, c: char)
    requires |digits| > 0 && AllDigits(digits) && IsDigit(c)
    ensures |digits + "." + [c]| >= 3
    ensures IsDigit((digits + "." + [c])[0])
    ensures IsDigit((digits + "." + [c])[|digits + "." + [c]| - 1])
    ensures ParseMagnitude(digits + "." + [c]) == Ok(Finite(DigitsValue(digits) * 10 + DigitOf(c), 1))
  {
    ReadDigitsPoint(digits, c);
    assert (digits + "." + [c])[0] == digits[0];
  }

  /** float of a digit-led, digit-ended text is its magnitude. */
  lemma PlainMagnitude(u: string)
    requires |u| > 0 && IsDigit(u[0]) && IsDigit(u[|u| - 1])
    ensures ParseFloat(u) == ParseMagnitude(u)
  {
    StripPlain(u);
  }

  /** float of a minus sign before a digit-ended text is the negated
      magnitude. */
  lemma MinusMagnitude(u: string)
    requires |u| > 0 && IsDigit(u[|u| - 1])
    ensures ParseFloat("-" + u) == Negated(ParseMagnitude(u))
  {
    var m := "-" + u;
    assert m[|m| - 1] == u[|u| - 1];
    StripPlain(m);
    assert m[1..] == u;
  }

  /** The unsigned text, commas dropped, is a magnitude reading as a tenths. */
  lemma UnsignedReads(a: nat, grouped: bool)
    ensures |ReplaceChar(Unsigned(a, grouped), ',', "")| >= 3
    ensures IsDigit(ReplaceChar(Unsigned(a, grouped), ',', "")[0])
    ensures IsDigit(ReplaceChar(Unsigned(a, grouped), ',', "")[|ReplaceChar(Unsigned(a, grouped), ',', "")| - 1])
    ensures ParseMagnitude(ReplaceChar(Unsigned(a, grouped), ',', "")) == Ok(Finite(a, 1))
  {
    UnsignedCommaFree(a, grouped);
    WholePartReadsBack(a, grouped);
    DigitsPointReads(ReplaceChar(WholePart(a, grouped), ',', ""), DigitChar(a % 10));
  }

  /** A sign before the magnitude's text makes float read the signed
      value. */
  lemma SignedReads(u: string, t: int)
    requires |u| > 0 && IsDigit(u[0]) && IsDigit(u[|u| - 1])
    requires ParseMagnitude(u) == Ok(Finite(Magnitude(t), 1))
    ensures ParseFloat(SignText(t, false) + u) == Ok(Finite(t, 1))
  {
    if t < 0 {
      MinusMagnitude(u);
    } else {
      assert SignText(t, false) + u == u;
      PlainMagnitude(u);
    }
  }

  /** No character other than a digit occurs in a digit string. */
  lemma DigitsExclude(s: string, c: char)
    requires AllDigits(s) && !IsDigit(c)
    ensures c !in s
  {
    AllDigitsPointwise(s);
  }

  /** A grouped numeral holds only digits and commas. */
  lemma {:induction false} GroupedExcludes(n: nat, c: char)
    requires !IsDigit(c) && c != ','
    ensures c !in Grouped(n)
    decreases n
  {
    if n < 1000 {
      DigitsExclude(Decimal(n), c);
    } else {
      GroupedExcludes(n / 1000, c);
      DigitsExclude(Pad3(n % 1000), c);
      assert Grouped(n) == Grouped(n / 1000) + "," + Pad3(n % 1000);
    }
  }

  /** The unsigned text holds only digits, commas and the point. */
  lemma UnsignedExcludes(a: nat, grouped: bool, c: char)
    requires !IsDigit(c) && c != ',' && c != '.'
    ensures c !in Unsigned(a, grouped)
  {
    if grouped {
      GroupedExcludes(a / 10, c);
    } else {
      DigitsExclude(Decimal(a / 10), c);
    }
  }
}
