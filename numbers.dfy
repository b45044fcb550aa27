/**
 * Decimal rendering of integers (`int.ToString()`, as used in command lines and URLs)
 * and `Int32.Parse` with the default `NumberStyles.Integer`, which is what
 * `Convert.ChangeType(value, typeof(int))` performs on an environment variable.
 */
module Numbers {
  import opened Wrappers
  import opened Text

  const Int32Min: int := -0x8000_0000
  const Int32Max: int := 0x7FFF_FFFF

  predicate IsInt32(n: int) { Int32Min <= n <= Int32Max }

  function DigitChar(d: nat): (c: char)
    requires d < 10
    ensures IsAsciiDigit(c)
  {
    ('0' as int + d) as char
  }

  function DigitValue(c: char): (d: nat)
    requires IsAsciiDigit(c)
    ensures d < 10
  {
    c as int - '0' as int
  }

  predicate AllDigits(s: string) {
    forall i :: 0 <= i < |s| ==> IsAsciiDigit(s[i])
  }

  /** The shortest decimal digits of `n`. */
  function NatDigits(n: nat): (r: string)
    ensures |r| >= 1 && AllDigits(r)
    decreases n
  {
    if n < 10 then [DigitChar(n)] else NatDigits(n / 10) + [DigitChar(n % 10)]
  }

  /** `int.ToString()` with the invariant culture's "-" sign. */
  function DecimalString(n: int): (r: string)
    ensures |r| >= 1
    ensures n >= 0 <==> IsAsciiDigit(r[0])
    ensures n < 0 <==> r[0] == '-'
    ensures IsAsciiDigit(r[|r| - 1])
  {
    if n < 0 then "-" + NatDigits(-n) else NatDigits(n)
  }

  /** The value of a string of decimal digits. */
  function DigitsValue(s: string): nat
    requires AllDigits(s)
    decreases |s|
  {
    if |s| == 0 then 0 else DigitsValue(s[..|s| - 1]) * 10 + DigitValue(s[|s| - 1])
  }

  /** Reading back the digits of `n` yields `n`. */
  lemma {:induction false} NatDigitsValue(n: nat)
    ensures DigitsValue(NatDigits(n)) == n
    decreases n
  {
    var r := NatDigits(n);
    if n >= 10 {
      NatDigitsValue(n / 10);
      assert r[..|r| - 1] == NatDigits(n / 10);
    }
  }

  /** The white space that `NumberStyles.AllowLeadingWhite | AllowTrailingWhite` skips. */
  predicate IsNumberSpace(c: char) { ('\t' <= c <= '\r') || c == ' ' }

  function TrimStart(s: string): (r: string)
    ensures |r| <= |s|
    ensures |r| > 0 ==> !IsNumberSpace(r[0])
    decreases |s|
  {
    if |s| > 0 && IsNumberSpace(s[0]) then TrimStart(s[1..]) else s
  }

  function TrimEnd(s: string): (r: string)
    ensures |r| <= |s|
    ensures |r| > 0 ==> !IsNumberSpace(r[|r| - 1])
    decreases |s|
  {
    if |s| > 0 && IsNumberSpace(s[|s| - 1]) then TrimEnd(s[..|s| - 1]) else s
  }

  /**
   * `Int32.Parse(s, NumberStyles.Integer)`: optional white space around an optional
   * sign followed by at least one digit; a value outside the 32-bit range fails.
   */
  function ParseInt32(s: string): (r: Option<int>)
    ensures r.Some? ==> IsInt32(r.value)
  {
    var t := TrimEnd(TrimStart(s));
    if |t| == 0 then None
    else
      var body := if t[0] == '-' || t[0] == '+' then t[1..] else t;
      if |body| == 0 || !AllDigits(body) then None
      else
        var magnitude: int := DigitsValue(body);
        var v := if t[0] == '-' then -magnitude else magnitude;
        if IsInt32(v) then Some(v) else None
  }

  /** Every 32-bit integer survives rendering and parsing back. */
  lemma ParseDecimalString(n: int)
    requires IsInt32(n)
    ensures ParseInt32(DecimalString(n)) == Some(n)
  {
    var s := DecimalString(n);
    assert TrimStart(s) == s;
    assert TrimEnd(s) == s;
    if n < 0 {
      assert s[1..] == NatDigits(-n);
      NatDigitsValue(-n);
    } else {
      NatDigitsValue(n);
    }
  }

  /** Parsing skips surrounding white space, as `Int32.Parse` does. */
  lemma ParseAcceptsPaddedPort()
    ensures ParseInt32(" 8080 ") == Some(8080)
  {
    assert TrimEnd(TrimStart(" 8080 ")) == "8080" by {
      assert TrimStart(" 8080 ") == " 8080 "[1..];
      assert " 8080 "[1..] == "8080 ";
      assert TrimEnd("8080 ") == TrimEnd("8080 "[..4]);
      assert "8080 "[..4] == "8080";
    }
    assert DigitsValue("8080") == 8080 by {
      assert "8080"[..3] == "808";
      assert "808"[..2] == "80";
      assert "80"[..1] == "8";
      assert "8"[..0] == "";
    }
  }

  /** Blank, non-digit and out-of-range text is rejected. */
  lemma ParseRejects()
    ensures ParseInt32("") == None
    ensures ParseInt32("80a") == None
    ensures ParseInt32("99999999999") == None
  {
    assert !AllDigits("80a") by { assert !IsAsciiDigit("80a"[2]); }
    var big := "99999999999";
    assert DigitsValue(big) >= 10000000000 by {
      DigitsLowerBound(big);
    }
  }

  /** A digit string starting with a non-zero digit is at least 10^(|s|-1). */
  lemma {:induction false} DigitsLowerBound(s: string)
    requires |s| >= 1 && AllDigits(s) && s[0] != '0'
    ensures DigitsValue(s) >= Pow10(|s| - 1)
    decreases |s|
  {
    if |s| > 1 {
      assert s[..|s| - 1][0] == s[0];
      DigitsLowerBound(s[..|s| - 1]);
    }
  }

  function Pow10(k: nat): (p: nat)
    ensures p >= 1
  {
    if k == 0 then 1 else 10 * Pow10(k - 1)
  }
}
