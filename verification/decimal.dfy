/** The value of a matched `\d+\.\d+` amount. The code converts the
    matched text with `float(...)`; here the value is the exact decimal
    the text denotes, so `45.00` and `45.0` are the same amount and no
    binary rounding takes place. */
module Decimal {
  import opened Text

  predicate AllDigits(s: string) {
    forall k | 0 <= k < |s| :: IsDigit(s[k])
  }

  /** A run of digits inside a string, cut out, is all digits. */
  lemma DigitsInAll(s: string, i: nat, j: nat)
    requires i <= j <= |s| && DigitsIn(s, i, j)
    ensures AllDigits(s[i..j])
  {
    forall k | 0 <= k < j - i ensures IsDigit(s[i..j][k]) {
      assert DigitAt(s, i + k);
    }
  }

  function Pow10(n: nat): (p: nat)
    ensures p >= 1
  {
    if n == 0 then 1 else 10 * Pow10(n - 1)
  }

  /** The natural number written by a string of ASCII digits. */
  function DigitsValue(s: string): nat
    requires AllDigits(s)
  {
    if |s| == 0 then 0
    else DigitsValue(s[..|s| - 1]) * 10 + (s[|s| - 1] as int - '0' as int)
  }

  /** A string of `n` digits writes a number below `10^n`. */
  lemma {:induction false} DigitsValueBound(s: string)
    requires AllDigits(s)
    ensures DigitsValue(s) < Pow10(|s|)
    decreases |s|
  {
    if |s| > 0 {
      DigitsValueBound(s[..|s| - 1]);
    }
  }

  /** `whole.frac` as an exact amount. */
  function DecimalValue(whole: string, frac: string): real
    requires AllDigits(whole) && AllDigits(frac)
  {
    DigitsValue(whole) as real + DigitsValue(frac) as real / Pow10(|frac|) as real
  }

  /** The amount is never negative, and the digits before the point are
      exactly its integer part: the fraction stays below one. */
  lemma DecimalValueParts(whole: string, frac: string)
    requires AllDigits(whole) && AllDigits(frac)
    ensures DecimalValue(whole, frac) >= 0.0
    ensures DecimalValue(whole, frac).Floor == DigitsValue(whole)
  {
    DigitsValueBound(frac);
    FractionBelowOne(DigitsValue(frac), Pow10(|frac|));
  }

  lemma FractionBelowOne(d: nat, p: nat)
    requires d < p
    ensures 0.0 <= d as real / p as real < 1.0
  {
    var q := d as real / p as real;
    assert q * (p as real) == d as real;
  }

  /** `t` is exactly `\d+\.\d+`: a run of digits, a point, at least one
      more digit and nothing else. */
  predicate IsDecimalText(t: string) {
    var p := SkipDigits(t, 0);
    0 < p && p + 1 < |t| && t[p] == '.' && DigitsIn(t, p + 1, |t|)
  }

  /** `float(t)` for a matched amount, read exactly. */
  function ParseDecimal(t: string): real
    requires IsDecimalText(t)
  {
    var p := SkipDigits(t, 0);
    DigitsInAll(t, 0, p);
    DigitsInAll(t, p + 1, |t|);
    assert t[0..p] == t[..p] && t[p + 1..|t|] == t[p + 1..];
    DecimalValue(t[..p], t[p + 1..])
  }

  /** An amount is written with its whole and fractional digits. */
  lemma {:induction false} ParseDecimalOfParts(whole: string, frac: string)
    requires |whole| > 0 && |frac| > 0 && AllDigits(whole) && AllDigits(frac)
    ensures IsDecimalText(whole + "." + frac)
    ensures ParseDecimal(whole + "." + frac) == DecimalValue(whole, frac)
  {
    var t := whole + "." + frac;
    forall k | 0 <= k < |whole| ensures DigitAt(t, k) {
      assert t[k] == whole[k];
    }
    forall k | |whole| + 1 <= k < |t| ensures DigitAt(t, k) {
      assert t[k] == frac[k - |whole| - 1];
    }
    SkipDigitsStops(t, 0, |whole|);
    assert t[..|whole|] == whole;
    assert t[|whole| + 1..] == frac;
  }
}
