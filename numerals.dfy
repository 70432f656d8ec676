/**
 * Decimal numerals in text: `str(n)` for integers, the number tokens that
 * the pattern `[\d,.]+` finds (ASCII digits only), and `float()` of such a
 * token once its commas are removed.
 */
module Numerals {
  import opened Wrappers

  predicate IsDigit(c: char)
  {
    '0' <= c <= '9'
  }

  predicate AllDigits(s: string)
  {
    forall i :: 0 <= i < |s| ==> IsDigit(s[i])
  }

  function DigitChar(d: nat): (c: char)
    requires d < 10
    ensures IsDigit(c) && c as int - '0' as int == d
  {
    ('0' as int + d) as char
  }

  /** The number a run of digits spells. */
  function DigitsValue(s: string): nat
    requires AllDigits(s)
  {
    if |s| == 0 then 0 else DigitsValue(s[..|s| - 1]) * 10 + (s[|s| - 1] as int - '0' as int)
  }

  /** `str(n)` for a natural number: no leading zero except for 0 itself. */
  function NatToString(n: nat): (r: string)
    ensures |r| > 0 && AllDigits(r)
    ensures |r| > 1 ==> r[0] != '0'
  {
    if n < 10 then [DigitChar(n)] else NatToString(n / 10) + [DigitChar(n % 10)]
  }

  /** `str(i)` for an integer. */
  function IntToString(i: int): (r: string)
    ensures |r| > 0
  {
    if i < 0 then "-" + NatToString(-i) else NatToString(i)
  }

  /** Reading back the digits of `str(n)` gives `n`. */
  lemma {:induction false} NatToStringRoundTrip(n: nat)
    ensures DigitsValue(NatToString(n)) == n
  {
    if n >= 10 {
      NatToStringRoundTrip(n / 10);
      var s := NatToString(n);
      assert s[..|s| - 1] == NatToString(n / 10);
    }
  }

  /** Distinct numbers print differently. */
  lemma NatToStringInjective(m: nat, n: nat)
    requires NatToString(m) == NatToString(n)
    ensures m == n
  {
    NatToStringRoundTrip(m);
    NatToStringRoundTrip(n);
  }

  // ---------------------------------------------------------------------
  // Number tokens

  /** A character of the class `[\d,.]`. */
  predicate IsNumberChar(c: char)
  {
    IsDigit(c) || c == ',' || c == '.'
  }

  /** The length of the run of number characters that starts `s`. */
  function RunLength(s: string): (n: nat)
    ensures n <= |s|
    ensures forall i :: 0 <= i < n ==> IsNumberChar(s[i])
    ensures n < |s| ==> !IsNumberChar(s[n])
  {
    if |s| > 0 && IsNumberChar(s[0]) then 1 + RunLength(s[1..]) else 0
  }

  /** `re.findall(r'[\d,.]+', s)`: the maximal runs of digits, commas and dots, left to right. */
  function NumberTokens(s: string): (r: seq<string>)
    ensures forall t :: t in r ==> |t| > 0 && forall i :: 0 <= i < |t| ==> IsNumberChar(t[i])
    decreases |s|
  {
    if |s| == 0 then []
    else if !IsNumberChar(s[0]) then NumberTokens(s[1..])
    else
      var n := RunLength(s);
      [s[..n]] + NumberTokens(s[n..])
  }

  /** The number characters of `s`, in order. */
  function NumberChars(s: string): (r: string)
    ensures forall i :: 0 <= i < |r| ==> IsNumberChar(r[i])
  {
    if |s| == 0 then "" else (if IsNumberChar(s[0]) then [s[0]] else "") + NumberChars(s[1..])
  }

  function Concat(ts: seq<string>): string
  {
    if |ts| == 0 then "" else ts[0] + Concat(ts[1..])
  }

  lemma {:induction false} NumberCharsOfRun(s: string, n: nat)
    requires n <= |s| && forall i :: 0 <= i < n ==> IsNumberChar(s[i])
    ensures NumberChars(s) == s[..n] + NumberChars(s[n..])
    decreases n
  {
    if n > 0 {
      NumberCharsOfRun(s[1..], n - 1);
      assert s[1..][n - 1..] == s[n..];
      assert s[..n] == [s[0]] + s[1..][..n - 1];
    }
  }

  /**
   * The tokens, laid end to end, are exactly the number characters of the
   * text: no number character is missed and nothing else is taken.
   */
  lemma {:induction false} TokensCoverNumberChars(s: string)
    ensures Concat(NumberTokens(s)) == NumberChars(s)
    decreases |s|
  {
    if |s| > 0 {
      if !IsNumberChar(s[0]) {
        TokensCoverNumberChars(s[1..]);
      } else {
        var n := RunLength(s);
        TokensCoverNumberChars(s[n..]);
        NumberCharsOfRun(s, n);
        assert ([s[..n]] + NumberTokens(s[n..]))[1..] == NumberTokens(s[n..]);
      }
    }
  }

  /** A text has no number token exactly when it has no digit, comma or dot. */
  lemma NoTokensIffNoNumberChars(s: string)
    ensures |NumberTokens(s)| == 0 <==> forall i :: 0 <= i < |s| ==> !IsNumberChar(s[i])
  {
    TokensCoverNumberChars(s);
    if |NumberTokens(s)| == 0 {
      NoNumberChars(s);
    } else {
      var t := NumberTokens(s)[0];
      assert t in NumberTokens(s);
      assert Concat(NumberTokens(s)) == t + Concat(NumberTokens(s)[1..]);
      assert |NumberChars(s)| > 0;
      SomeNumberChar(s);
    }
  }

  lemma {:induction false} NoNumberChars(s: string)
    requires |NumberChars(s)| == 0
    ensures forall i :: 0 <= i < |s| ==> !IsNumberChar(s[i])
    decreases |s|
  {
    if |s| > 0 {
      NoNumberChars(s[1..]);
      assert forall i :: 1 <= i < |s| ==> s[i] == s[1..][i - 1];
    }
  }

  lemma {:induction false} SomeNumberChar(s: string)
    requires |NumberChars(s)| > 0
    ensures exists i :: 0 <= i < |s| && IsNumberChar(s[i])
    decreases |s|
  {
    if !IsNumberChar(s[0]) {
      SomeNumberChar(s[1..]);
      var i :| 0 <= i < |s[1..]| && IsNumberChar(s[1..][i]);
      assert IsNumberChar(s[i + 1]);
    }
  }

  // ---------------------------------------------------------------------
  // float() of a token

  function Pow10(n: nat): (r: nat)
    ensures r >= 1
  {
    if n == 0 then 1 else 10 * Pow10(n - 1)
  }

  /**
   * `float(t.replace(',', ''))` for a number token: digits with at most one
   * dot and at least one digit; anything else raises `ValueError` (None).
   */
  function ParseDecimal(t: string): (r: Option<real>)
    ensures r.Some? ==> r.value >= 0.0
  {
    var s := StripCommas(t);
    var intLen := RunOfDigits(s);
    if intLen == |s| then
      if |s| > 0 then Some(DigitsValue(s) as real) else None
    else if s[intLen] != '.' then None
    else
      var frac := s[intLen + 1..];
      var fracLen := RunOfDigits(frac);
      if fracLen < |frac| || intLen + fracLen == 0 then None
      else Some(DigitsValue(s[..intLen]) as real + DigitsValue(frac) as real / Pow10(fracLen) as real)
  }

  function StripCommas(t: string): (r: string)
    ensures forall i :: 0 <= i < |r| ==> r[i] != ','
    ensures forall c :: c in t && c != ',' ==> c in r
  {
    if |t| == 0 then "" else (if t[0] == ',' then "" else [t[0]]) + StripCommas(t[1..])
  }

  lemma {:induction false} StripCommasAbsent(t: string)
    requires ',' !in t
    ensures StripCommas(t) == t
    decreases |t|
  {
    if |t| > 0 {
      assert ',' !in t[1..];
      StripCommasAbsent(t[1..]);
      assert t == [t[0]] + t[1..];
    }
  }

  /** The length of the run of digits that starts `s`. */
  function RunOfDigits(s: string): (n: nat)
    ensures n <= |s| && AllDigits(s[..n])
    ensures n < |s| ==> !IsDigit(s[n])
  {
    if |s| > 0 && IsDigit(s[0]) then
      var n := 1 + RunOfDigits(s[1..]);
      assert s[..n] == [s[0]] + s[1..][..n - 1];
      n
    else 0
  }

  /** Text that starts with anything but a digit, a comma or a dot is not a number. */
  lemma ParseDecimalNonDigitStart(t: string)
    requires |t| > 0 && !IsDigit(t[0]) && t[0] != '.' && t[0] != ','
    ensures ParseDecimal(t) == None
  {
    assert StripCommas(t) == [t[0]] + StripCommas(t[1..]);
  }

  /** A printed natural number parses back to itself. */
  lemma ParseNatToString(n: nat)
    ensures ParseDecimal(NatToString(n)) == Some(n as real)
  {
    var s := NatToString(n);
    NoCommas(s);
    AllDigitsRun(s);
    NatToStringRoundTrip(n);
  }

  lemma {:induction false} NoCommas(s: string)
    requires AllDigits(s)
    ensures StripCommas(s) == s
    decreases |s|
  {
    if |s| > 0 {
      NoCommas(s[1..]);
    }
  }

  lemma {:induction false} AllDigitsRun(s: string)
    requires AllDigits(s)
    ensures RunOfDigits(s) == |s|
    decreases |s|
  {
    if |s| > 0 {
      AllDigitsRun(s[1..]);
    }
  }

  /** A dot with no digit around it is not a number. */
  lemma LoneDotIsNotANumber()
    ensures ParseDecimal(".") == None
    ensures ParseDecimal(",.,") == None
    ensures ParseDecimal("1.2.3") == None
  {
    BareDot();
    assert StripCommas(",") == "";
    assert StripCommas(".,") == ".";
    assert StripCommas(",.,") == ".";
    SecondDot();
  }

  lemma BareDot()
    ensures StripCommas(".") == "." && ParseDecimal(".") == None
  {
    assert StripCommas(".") == ['.'] + StripCommas("");
    assert RunOfDigits(".") == 0;
    assert RunOfDigits(""[..]) == 0;
  }

  lemma SecondDot()
    ensures ParseDecimal("1.2.3") == None
  {
    StripCommasAbsent("1.2.3");
    assert "1.2.3"[1..] == ".2.3";
    assert RunOfDigits(".2.3") == 0;
    assert RunOfDigits("1.2.3") == 1;
    assert "1.2.3"[2..] == "2.3";
    assert "2.3"[1..] == ".3";
    assert RunOfDigits(".3") == 0;
    assert RunOfDigits("2.3") == 1;
  }
}
