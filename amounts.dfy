/**
 * Transaction amounts as the converter reads and prints them.
 *
 * The AMOUNT column is read with Python's `float(...)` and printed with the
 * `.2f` format. This module keeps amounts exact: an amount is a sign and a
 * number of cents, read from a restricted decimal grammar
 *
 *     amount ::= [ '-' ] digit* [ '.' digit? digit? ]     (at least one digit)
 *
 * and printed with exactly two digits after the decimal point. The sign is kept
 * apart from the magnitude because a negated zero prints as `-0.00`.
 */
module Amounts {

  import opened Wrappers

  /** A signed amount in cents; `negative` is the sign bit, also for zero. */
  datatype Amount = Amount(negative: bool, cents: nat)

  /** Flipping the sign bit, as Python's unary minus on a float does. */
  function Negate(a: Amount): (r: Amount)
    ensures r.cents == a.cents && r.negative != a.negative
  {
    Amount(!a.negative, a.cents)
  }

  predicate IsDigit(c: char) {
    '0' <= c <= '9'
  }

  predicate AllDigits(s: string) {
    forall i :: 0 <= i < |s| ==> IsDigit(s[i])
  }

  function DigitValue(c: char): (d: nat)
    requires IsDigit(c)
    ensures d < 10
  {
    c as int - '0' as int
  }

  function DigitChar(d: nat): (c: char)
    requires d < 10
    ensures IsDigit(c) && DigitValue(c) == d
  {
    ('0' as int + d) as char
  }

  /** The value of a string of decimal digits, most significant first. */
  function DigitsValue(s: string): nat
    requires AllDigits(s)
  {
    if s == [] then 0 else DigitsValue(s[..|s| - 1]) * 10 + DigitValue(s[|s| - 1])
  }

  /** The decimal numeral of `n` without leading zeros (`"0"` for zero). */
  function Numeral(n: nat): (s: string)
    ensures 0 < |s| && AllDigits(s) && DigitsValue(s) == n
    ensures |s| > 1 ==> s[0] != '0'
  {
    if n < 10 then [DigitChar(n)]
    else
      var s := Numeral(n / 10) + [DigitChar(n % 10)];
      assert s[..|s| - 1] == Numeral(n / 10);
      s
  }

  /** Index of the first '.' in `s`, or `|s|` when there is none. */
  function DotIndex(s: string): (i: nat)
    ensures i <= |s|
    ensures forall j :: 0 <= j < i ==> s[j] != '.'
    ensures i < |s| ==> s[i] == '.'
  {
    if s == [] then 0 else if s[0] == '.' then 0 else 1 + DotIndex(s[1..])
  }

  /** Cents contributed by the (at most two) digits after the point. */
  function FractionCents(f: string): (c: nat)
    requires AllDigits(f) && |f| <= 2
    ensures c < 100
  {
    if |f| == 0 then 0
    else if |f| == 1 then DigitValue(f[0]) * 10
    else DigitValue(f[0]) * 10 + DigitValue(f[1])
  }

  /** Reads an unsigned amount `digit* [ '.' digit? digit? ]` as a number of cents. */
  function ParseCents(body: string): (r: Option<nat>)
    ensures r.Some? ==> 0 < |body|
    ensures r.Some? ==> forall i :: 0 <= i < |body| ==> IsDigit(body[i]) || body[i] == '.'
  {
    var dot := DotIndex(body);
    var whole := body[..dot];
    var fraction := if dot < |body| then body[dot + 1..] else "";
    if AllDigits(whole) && AllDigits(fraction) && |fraction| <= 2 && 0 < |whole| + |fraction| then
      assert forall i :: 0 <= i < |body| ==> IsDigit(body[i]) || body[i] == '.' by {
        forall i | 0 <= i < |body| ensures IsDigit(body[i]) || body[i] == '.' {
          if i < dot {
            assert body[i] == whole[i];
          } else if dot < i {
            assert body[i] == fraction[i - dot - 1];
          }
        }
      }
      Some(DigitsValue(whole) * 100 + FractionCents(fraction))
    else
      None
  }

  /**
   * Reads an AMOUNT field. `None` stands for the `ValueError` that `float`
   * raises; any text outside the grammar above is refused.
   */
  function Parse(s: string): (r: Option<Amount>)
    ensures r.Some? ==> 0 < |s|
    ensures r.Some? ==> (r.value.negative <==> s[0] == '-')
    ensures r.Some? ==> forall i :: 0 <= i < |s| ==> IsDigit(s[i]) || s[i] == '-' || s[i] == '.'
  {
    var negative := 0 < |s| && s[0] == '-';
    var body := if negative then s[1..] else s;
    match ParseCents(body)
    case None => None
    case Some(cents) =>
      assert negative ==> forall i :: 1 <= i < |s| ==> s[i] == body[i - 1];
      Some(Amount(negative, cents))
  }

  /**
   * The text `f'{amount:.2f}'` gives for an amount with at most two decimals:
   * an optional '-', the whole units in decimal without leading zeros, a '.'
   * and the two digits of the cents.
   */
  function Format(a: Amount): (s: string)
    ensures 4 <= |s| && s[|s| - 3] == '.' && IsDigit(s[|s| - 2]) && IsDigit(s[|s| - 1])
    ensures forall i :: 0 <= i < |s| - 3 ==> s[i] != '.'
    ensures s[0] == '-' <==> a.negative
    ensures var w := s[(if a.negative then 1 else 0)..|s| - 3];
      0 < |w| && AllDigits(w) && (|w| > 1 ==> w[0] != '0') &&
      DigitsValue(w) * 100 + DigitValue(s[|s| - 2]) * 10 + DigitValue(s[|s| - 1]) == a.cents
  {
    var sign := if a.negative then "-" else "";
    var whole := Numeral(a.cents / 100);
    var tens, units := a.cents % 100 / 10, a.cents % 10;
    var s := sign + whole + "." + [DigitChar(tens), DigitChar(units)];
    assert forall i :: 0 <= i < |whole| ==> IsDigit(whole[i]);
    assert s[|sign|..|s| - 3] == whole;
    assert s[|s| - 2] == DigitChar(tens) && s[|s| - 1] == DigitChar(units);
    assert (a.cents / 100) * 100 + tens * 10 + units == a.cents;
    s
  }

  /** Text without a sign in the grammar: digits, or digits, '.' and at most two digits. */
  predicate UnsignedDecimal(b: string) {
    (0 < |b| && AllDigits(b)) ||
    exists k :: 0 <= k < |b| && b[k] == '.' && AllDigits(b[..k]) && AllDigits(b[k + 1..]) && |b| - k <= 3 && 1 < |b|
  }

  /** The AMOUNT texts the model reads: an optional '-' before an unsigned decimal. */
  predicate Decimal(s: string) {
    if 0 < |s| && s[0] == '-' then UnsignedDecimal(s[1..]) else UnsignedDecimal(s)
  }

  lemma ParseCentsGrammar(b: string)
    ensures ParseCents(b).Some? <==> UnsignedDecimal(b)
  {
    var dot := DotIndex(b);
    if ParseCents(b).Some? {
      if dot < |b| {
        assert b[dot] == '.' && AllDigits(b[..dot]) && AllDigits(b[dot + 1..]);
      } else {
        assert b[..dot] == b;
      }
    }
    if 0 < |b| && AllDigits(b) {
      DotIndexDigits(b);
      assert b[..dot] == b;
    }
    if k :| 0 <= k < |b| && b[k] == '.' && AllDigits(b[..k]) && AllDigits(b[k + 1..]) && |b| - k <= 3 && 1 < |b| {
      forall j | 0 <= j < k
        ensures b[j] != '.'
      {
        assert b[..k][j] == b[j];
      }
      assert dot == k;
    }
  }

  /** An AMOUNT is accepted exactly when it is in the grammar; anything else is the `ValueError` case. */
  lemma ParseGrammar(s: string)
    ensures Parse(s).Some? <==> Decimal(s)
  {
    ParseCentsGrammar(if 0 < |s| && s[0] == '-' then s[1..] else s);
  }

  /** Two points are refused, as `float` refuses them. */
  lemma TwoPointsRefused()
    ensures Parse("1.2.3").None? && Parse("-1.2.3").None?
  {
    var b := "1.2.3";
    assert DotIndex(b) == 1 by { assert DotIndex(b[1..]) == 0; }
    assert b[2..][1] == '.';
    assert ("-" + b)[1..] == b;
  }

  lemma {:induction false} ParseDecimal(whole: string, fraction: string)
    requires AllDigits(whole) && AllDigits(fraction) && |fraction| <= 2 && 0 < |whole| + |fraction|
    ensures Parse(whole + "." + fraction) == Some(Amount(false, DigitsValue(whole) * 100 + FractionCents(fraction)))
  {
    var body := whole + "." + fraction;
    assert body[0] != '-' by { if whole != [] { assert IsDigit(whole[0]); } }
    DotIndexAt(whole, fraction);
    assert body[..|whole|] == whole;
    assert body[|whole| + 1..] == fraction;
  }

  /** A text of digits alone is accepted as that many whole units. */
  lemma {:induction false} ParseWhole(whole: string)
    requires AllDigits(whole) && 0 < |whole|
    ensures Parse(whole) == Some(Amount(false, DigitsValue(whole) * 100))
  {
    assert IsDigit(whole[0]);
    DotIndexDigits(whole);
    assert whole[..|whole|] == whole;
  }

  lemma {:induction false} DotIndexDigits(whole: string)
    requires AllDigits(whole)
    ensures DotIndex(whole) == |whole|
  {
    if whole != [] {
      assert IsDigit(whole[0]);
      DotIndexDigits(whole[1..]);
    }
  }

  /** The unsigned part of a printed amount reads back as its cents. */
  lemma {:induction false} ParseCentsFormat(cents: nat)
    ensures ParseCents(Numeral(cents / 100) + "." + [DigitChar(cents % 100 / 10), DigitChar(cents % 10)]) == Some(cents)
  {
    var whole := Numeral(cents / 100);
    var fraction := [DigitChar(cents % 100 / 10), DigitChar(cents % 10)];
    var body := whole + "." + fraction;
    DotIndexAt(whole, fraction);
    assert body[..|whole|] == whole;
    assert body[|whole| + 1..] == fraction;
    assert FractionCents(fraction) == cents % 100;
  }

  /** Printing an amount and reading it back gives the same amount. */
  lemma {:induction false} ParseFormat(a: Amount)
    ensures Parse(Format(a)) == Some(a)
  {
    var whole := Numeral(a.cents / 100);
    var body := whole + "." + [DigitChar(a.cents % 100 / 10), DigitChar(a.cents % 10)];
    var s := Format(a);
    assert s == (if a.negative then "-" else "") + body;
    assert IsDigit(whole[0]);
    assert (if a.negative then s[1..] else s) == body;
    ParseCentsFormat(a.cents);
  }

  lemma {:induction false} DotIndexAt(whole: string, rest: string)
    requires AllDigits(whole)
    ensures DotIndex(whole + "." + rest) == |whole|
  {
    if whole != [] {
      assert (whole + "." + rest)[1..] == whole[1..] + "." + rest;
      DotIndexAt(whole[1..], rest);
    }
  }

  /** Two amounts that print the same are the same amount. */
  lemma FormatInjective(a: Amount, b: Amount)
    requires Format(a) == Format(b)
    ensures a == b
  {
    ParseFormat(a);
    ParseFormat(b);
  }

  /** A leading '-' negates whatever the rest of the text reads as. */
  lemma {:induction false} ParseMinus(s: string)
    requires s == [] || s[0] != '-'
    ensures Parse("-" + s) == if Parse(s).Some? then Some(Negate(Parse(s).value)) else None
  {
    assert ("-" + s)[1..] == s;
  }
}
