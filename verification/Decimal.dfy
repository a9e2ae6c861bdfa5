/** Decimal numerals, as `to_string` and `{:08}` write them. */
module Decimal {
  import Lex

  function Digit(d: nat): char
    requires d < 10
  {
    "0123456789"[d]
  }

  predicate IsDigit(c: char) { '0' <= c <= '9' }

  function DigitValue(c: char): nat
    requires IsDigit(c)
  {
    c as int - '0' as int
  }

  function DecimalOf(n: nat): (s: string)
    ensures s != "" && forall c | c in s :: IsDigit(c)
  {
    if n < 10 then [Digit(n)] else DecimalOf(n / 10) + [Digit(n % 10)]
  }

  function Pow10(k: nat): (p: nat)
    ensures p >= 1
  {
    if k == 0 then 1 else 10 * Pow10(k - 1)
  }

  function Zeros(k: nat): (s: string)
    ensures |s| == k && forall c | c in s :: c == '0'
  {
    if k == 0 then "" else "0" + Zeros(k - 1)
  }

  /** `{:08}`: at least eight digits. */
  function Format8(n: nat): (s: string)
    ensures forall c | c in s :: IsDigit(c)
  {
    var s := DecimalOf(n);
    if |s| < 8 then Zeros(8 - |s|) + s else s
  }

  predicate Numeral(s: string) { forall c | c in s :: IsDigit(c) }

  /** The number a numeral stands for. */
  function Value(s: string): nat
    requires Numeral(s)
  {
    if s == "" then 0 else DigitValue(s[0]) * Pow10(|s| - 1) + Value(s[1..])
  }

  lemma {:induction false} ValueAppend(s: string, c: char)
    requires Numeral(s) && IsDigit(c)
    ensures Numeral(s + [c]) && Value(s + [c]) == 10 * Value(s) + DigitValue(c)
  {
    if s == "" {
      assert s + [c] == [c];
      assert Value([c]) == DigitValue(c) * Pow10(0) + Value("");
    } else {
      assert (s + [c])[1..] == s[1..] + [c];
      ValueAppend(s[1..], c);
      var d, p := DigitValue(s[0]), Pow10(|s| - 1);
      assert Value(s + [c]) == d * (10 * p) + Value(s[1..] + [c]);
      assert d * (10 * p) == 10 * (d * p);
    }
  }

  lemma {:induction false} ValueOfDecimal(n: nat)
    ensures Value(DecimalOf(n)) == n
  {
    if n >= 10 {
      ValueOfDecimal(n / 10);
      ValueAppend(DecimalOf(n / 10), Digit(n % 10));
    } else {
      ValueAppend("", Digit(n));
      assert "" + [Digit(n)] == [Digit(n)];
    }
  }

  lemma {:induction false} ValueOfZeros(k: nat, s: string)
    requires Numeral(s)
    ensures Numeral(Zeros(k) + s) && Value(Zeros(k) + s) == Value(s)
  {
    if k == 0 {
      assert Zeros(0) + s == s;
    } else {
      ValueOfZeros(k - 1, s);
      assert (Zeros(k) + s)[1..] == Zeros(k - 1) + s;
    }
  }

  lemma ValueOfFormat8(n: nat)
    ensures Value(Format8(n)) == n
  {
    ValueOfDecimal(n);
    if |DecimalOf(n)| < 8 { ValueOfZeros(8 - |DecimalOf(n)|, DecimalOf(n)); }
  }

  lemma {:induction false} DecimalLength(n: nat, k: nat)
    requires k >= 1
    ensures |DecimalOf(n)| <= k <==> n < Pow10(k)
  {
    if n < 10 {
      assert Pow10(k) == 10 * Pow10(k - 1);
    } else if k == 1 {
      assert |DecimalOf(n / 10)| >= 1;
    } else {
      DecimalLength(n / 10, k - 1);
    }
  }

  lemma {:induction false} ValueBound(s: string)
    requires Numeral(s)
    ensures Value(s) < Pow10(|s|)
  {
    if s != "" {
      ValueBound(s[1..]);
      Scale(DigitValue(s[0]), 9, Pow10(|s| - 1));
    }
  }

  lemma Scale(x: nat, y: nat, p: nat)
    requires x <= y
    ensures x * p <= y * p
  {
  }

  lemma HeadDecides(d: nat, e: nat, p: nat, x: nat, y: nat)
    requires x < p && y < p && d * p + x <= e * p + y
    ensures d <= e && (d == e ==> x <= y)
  {
    assert (e + 1) * p == e * p + p;
    if d > e { Scale(e + 1, d, p); }
  }

  /** Numerals of one length compare as their values do. */
  lemma {:induction false} SameLengthOrder(s: string, t: string)
    requires Numeral(s) && Numeral(t) && |s| == |t| && Value(s) <= Value(t)
    ensures Lex.Le(s, t)
  {
    if s != "" {
      ValueBound(s[1..]);
      ValueBound(t[1..]);
      HeadDecides(DigitValue(s[0]), DigitValue(t[0]), Pow10(|s| - 1), Value(s[1..]), Value(t[1..]));
      if s[0] == t[0] { SameLengthOrder(s[1..], t[1..]); }
    }
  }

  lemma Format8Length(n: nat)
    ensures |Format8(n)| == 8 <==> n < 100_000_000
  {
    assert Pow10(8) == 100_000_000;
    DecimalLength(n, 8);
  }

  lemma Format8Order(m: nat, n: nat)
    requires m < n < 100_000_000
    ensures Lex.Lt(Format8(m), Format8(n))
  {
    Format8Length(m);
    Format8Length(n);
    ValueOfFormat8(m);
    ValueOfFormat8(n);
    SameLengthOrder(Format8(m), Format8(n));
  }
}
