/**
 * Text to number, as the monetary cleaning does it: the regular expression
 * `[$,₹]` is replaced by nothing, then pandas' to_numeric with errors='coerce'
 * reads what is left. Numbers are exact rationals; the accepted text is the
 * plain decimal literal: an optional sign, digits, an optional decimal point
 * followed by digits, with at least one digit in all.
 */
module Numeric {
  import opened Wrappers

  /** The characters of the character class `[$,₹]`. */
  predicate IsCurrencyMark(ch: char)
  {
    ch == '$' || ch == ',' || ch == '₹'
  }

  predicate NoCurrencyMark(s: string)
  {
    forall i :: 0 <= i < |s| ==> !IsCurrencyMark(s[i])
  }

  /** str.replace(r'[$,₹]', '', regex=True) */
  function StripCurrency(s: string): (r: string)
    ensures NoCurrencyMark(r)
    ensures |r| <= |s|
  {
    if s == [] then []
    else (if IsCurrencyMark(s[0]) then [] else [s[0]]) + StripCurrency(s[1..])
  }

  /** Text without a currency mark passes through unchanged; in particular the removal is idempotent. */
  lemma {:induction false} StripCurrencyKeepsPlainText(s: string)
    requires NoCurrencyMark(s)
    ensures StripCurrency(s) == s
  {
    if s != [] {
      StripCurrencyKeepsPlainText(s[1..]);
      assert [s[0]] + s[1..] == s;
    }
  }

  /** The removal works character by character: it distributes over concatenation. */
  lemma {:induction false} StripCurrencyConcat(a: string, b: string)
    ensures StripCurrency(a + b) == StripCurrency(a) + StripCurrency(b)
  {
    if a != [] {
      assert (a + b)[1..] == a[1..] + b;
      StripCurrencyConcat(a[1..], b);
    } else {
      assert a + b == b;
    }
  }

  /** A currency mark in front of plain text is all the removal takes away. */
  lemma StripLeadingMark(mark: char, s: string)
    requires IsCurrencyMark(mark) && NoCurrencyMark(s)
    ensures StripCurrency([mark] + s) == s
  {
    StripCurrencyConcat([mark], s);
    StripCurrencyKeepsPlainText(s);
  }

  predicate IsDigit(ch: char)
  {
    '0' <= ch <= '9'
  }

  predicate AllDigits(s: string)
  {
    forall i :: 0 <= i < |s| ==> IsDigit(s[i])
  }

  /** The number a string of decimal digits denotes. */
  function DigitsValue(s: string): nat
    requires AllDigits(s)
  {
    if s == [] then 0
    else 10 * DigitsValue(s[..|s| - 1]) + (s[|s| - 1] as int - '0' as int)
  }

  function Pow10(n: nat): (r: nat)
    ensures r >= 1
  {
    if n == 0 then 1 else 10 * Pow10(n - 1)
  }

  datatype Sign = Unsigned | Plus | Minus

  /** A decimal literal, split into its parts: sign, digits before the point, whether a point is written, digits after it. */
  datatype Literal = Literal(sign: Sign, whole: string, point: bool, fraction: string)

  predicate ValidLiteral(l: Literal)
  {
    && AllDigits(l.whole)
    && AllDigits(l.fraction)
    && |l.whole| + |l.fraction| > 0
    && (!l.point ==> l.fraction == [])
  }

  function SignText(sign: Sign): string
  {
    match sign
    case Unsigned => ""
    case Plus => "+"
    case Minus => "-"
  }

  /** The text of a literal. */
  function Render(l: Literal): string
  {
    SignText(l.sign) + l.whole + (if l.point then "." + l.fraction else "")
  }

  /** The exact number a literal denotes. */
  function Value(l: Literal): real
    requires ValidLiteral(l)
  {
    var magnitude := DigitsValue(l.whole) as real + DigitsValue(l.fraction) as real / Pow10(|l.fraction|) as real;
    if l.sign == Minus then -magnitude else magnitude
  }

  function ReadSign(s: string): (Sign, string)
  {
    if s != [] && s[0] == '+' then (Plus, s[1..])
    else if s != [] && s[0] == '-' then (Minus, s[1..])
    else (Unsigned, s)
  }

  /** The index of the first '.', or |s| when there is none. */
  function PointIndex(s: string): (k: nat)
    ensures k <= |s|
    ensures k < |s| ==> s[k] == '.'
    ensures forall j :: 0 <= j < k ==> s[j] != '.'
  {
    if s == [] || s[0] == '.' then 0 else 1 + PointIndex(s[1..])
  }

  /** Splits text into a literal, or reports that it is not one. */
  function ReadLiteral(s: string): (r: Option<Literal>)
    ensures r.Some? ==> ValidLiteral(r.value)
  {
    var sign := ReadSign(s).0;
    var body := ReadSign(s).1;
    var k := PointIndex(body);
    var point := k < |body|;
    var whole := body[..k];
    var fraction := if point then body[k + 1..] else "";
    if AllDigits(whole) && AllDigits(fraction) && |whole| + |fraction| > 0
    then Some(Literal(sign, whole, point, fraction))
    else None
  }

  /** pd.to_numeric(s, errors='coerce') on one string: None stands for NaN. */
  function ToNumeric(s: string): Option<real>
  {
    match ReadLiteral(s)
    case Some(l) => Some(Value(l))
    case None => None
  }

  lemma {:induction false} PointIndexAfterDigits(whole: string, rest: string)
    requires AllDigits(whole) && rest != [] && rest[0] == '.'
    ensures PointIndex(whole + rest) == |whole|
  {
    if whole != [] {
      assert (whole + rest)[1..] == whole[1..] + rest;
      PointIndexAfterDigits(whole[1..], rest);
    }
  }

  /** Reading the text of a literal gives back that literal. */
  lemma ReadRender(l: Literal)
    requires ValidLiteral(l)
    ensures ReadLiteral(Render(l)) == Some(l)
  {
    var text := Render(l);
    var body := l.whole + (if l.point then "." + l.fraction else "");
    assert text == SignText(l.sign) + body;
    assert body != [];
    assert body[0] != '+' && body[0] != '-';
    ReadSignAfter(l.sign, body);
    if l.point {
      PointIndexAfterDigits(l.whole, "." + l.fraction);
      assert body[|l.whole| + 1..] == l.fraction;
    } else {
      assert body == l.whole;
    }
    assert body[..PointIndex(body)] == l.whole;
  }

  lemma ReadSignAfter(sign: Sign, body: string)
    requires body != [] && body[0] != '+' && body[0] != '-'
    ensures ReadSign(SignText(sign) + body) == (sign, body)
  {
    match sign
    case Unsigned => assert SignText(sign) + body == body;
    case Plus => assert (SignText(sign) + body)[0] == '+' && (SignText(sign) + body)[1..] == body;
    case Minus => assert (SignText(sign) + body)[0] == '-' && (SignText(sign) + body)[1..] == body;
  }

  lemma ReadSignSplits(s: string)
    ensures SignText(ReadSign(s).0) + ReadSign(s).1 == s
  {
    if s != [] && (s[0] == '+' || s[0] == '-') {
      assert s == [s[0]] + s[1..];
    }
  }

  lemma SplitAtPoint(body: string, k: nat)
    requires k < |body| && body[k] == '.'
    ensures body[..k] + ("." + body[k + 1..]) == body
  {
    assert body[k..] == "." + body[k + 1..];
    assert body == body[..k] + body[k..];
  }

  /** Cutting the text at its first point and putting the point back gives the text. */
  lemma PointSplits(body: string)
    ensures var k := PointIndex(body);
            body[..k] + (if k < |body| then "." + body[k + 1..] else "") == body
  {
    var k := PointIndex(body);
    if k < |body| {
      SplitAtPoint(body, k);
    } else {
      assert body[..k] == body;
    }
  }

  lemma RenderRead(s: string)
    requires ReadLiteral(s).Some?
    ensures Render(ReadLiteral(s).value) == s
  {
    var l := ReadLiteral(s).value;
    var body := ReadSign(s).1;
    ReadSignSplits(s);
    PointSplits(body);
    assert l.whole + (if l.point then "." + l.fraction else "") == body;
  }

  /** to_numeric reads the text of every literal as the literal's value. */
  lemma ToNumericAccepts(l: Literal)
    requires ValidLiteral(l)
    ensures ToNumeric(Render(l)) == Some(Value(l))
  {
    ReadRender(l);
  }

  /** Text that starts with anything but a sign, a digit or a point is not a number. */
  lemma ToNumericRejectsLeadingText(s: string)
    requires s != [] && !IsDigit(s[0]) && s[0] != '+' && s[0] != '-' && s[0] != '.'
    ensures ToNumeric(s) == None
  {
    assert ReadSign(s) == (Unsigned, s);
    var k := PointIndex(s);
    assert k > 0;
    assert s[..k][0] == s[0];
  }

  /** Text that is not the text of any literal becomes NaN. */
  lemma ToNumericRejects(s: string)
    requires forall l :: ValidLiteral(l) ==> Render(l) != s
    ensures ToNumeric(s) == None
  {
    if ReadLiteral(s).Some? {
      RenderRead(s);
    }
  }
}
