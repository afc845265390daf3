/** The string conversions the source relies on from JavaScript: number
    formatting in template literals (`${n}` for an integer), `parseFloat`,
    and the ASCII case folding of a regular expression's `i` flag. */
module Text {
  import opened Wrappers

  predicate IsDigit(c: char) { '0' <= c <= '9' }

  predicate AllDigits(s: string) { forall i :: 0 <= i < |s| ==> IsDigit(s[i]) }

  function DigitChar(d: nat): (c: char)
    requires d < 10
    ensures IsDigit(c)
  {
    ('0' as int + d) as char
  }

  function DigitValue(c: char): (d: nat)
    requires IsDigit(c)
    ensures d < 10 && DigitChar(d) == c
  {
    c as int - '0' as int
  }

  /** The value of a string of decimal digits, most significant first. */
  function DigitsValue(s: string): nat
    requires AllDigits(s)
  {
    if s == [] then 0 else DigitsValue(s[..|s| - 1]) * 10 + DigitValue(s[|s| - 1])
  }

  /** Decimal representation of a natural number, most significant digit first. */
  function NatToString(n: nat): string
  {
    if n < 10 then [DigitChar(n)] else NatToString(n / 10) + [DigitChar(n % 10)]
  }

  /** The representation is as JavaScript prints it: digits only, no leading
      zero, and reading the digits back gives the number. */
  lemma {:induction false} NatToStringDigits(n: nat)
    ensures |NatToString(n)| >= 1 && AllDigits(NatToString(n))
    ensures |NatToString(n)| > 1 ==> NatToString(n)[0] != '0'
    ensures DigitsValue(NatToString(n)) == n
  {
    if n >= 10 {
      NatToStringDigits(n / 10);
      var r := NatToString(n);
      assert r[..|r| - 1] == NatToString(n / 10);
    }
  }

  /** `${i}` for an integer value `i` (below JavaScript's exponent-notation range). */
  function IntToString(i: int): string
  {
    if i < 0 then "-" + NatToString(-i) else NatToString(i)
  }

  /** Reads back an optionally negative decimal integer. */
  function ParseInt(s: string): Option<int>
  {
    if |s| >= 2 && s[0] == '-' && AllDigits(s[1..]) then Some(-(DigitsValue(s[1..]) as int))
    else if |s| >= 1 && AllDigits(s) then Some(DigitsValue(s))
    else None
  }

  /** Formatting an integer and reading it back gives the integer. */
  lemma IntToStringRoundTrip(i: int)
    ensures ParseInt(IntToString(i)) == Some(i)
  {
    NatToStringDigits(if i < 0 then -i else i);
    if i < 0 {
      var s := IntToString(i);
      assert s[1..] == NatToString(-i);
    } else {
      assert IntToString(i)[0] != '-';
    }
  }

  /** The longest prefix of `s` made of decimal digits. */
  function LeadingDigits(s: string): (r: string)
    ensures AllDigits(r) && r <= s
    ensures |r| < |s| ==> !IsDigit(s[|r|])
  {
    if s != [] && IsDigit(s[0]) then [s[0]] + LeadingDigits(s[1..]) else []
  }

  function Pow10(k: nat): (r: nat)
    ensures r >= 1
  {
    if k == 0 then 1 else 10 * Pow10(k - 1)
  }

  /** The digits after a leading '.', if there is one. */
  function FractionDigits(after: string): (r: string)
    ensures AllDigits(r)
  {
    if after != [] && after[0] == '.' then LeadingDigits(after[1..]) else []
  }

  /** The value of `whole.fraction` written in decimal. */
  function DecimalValue(whole: string, fraction: string): real
    requires AllDigits(whole) && AllDigits(fraction)
  {
    DigitsValue(whole) as real + DigitsValue(fraction) as real / Pow10(|fraction|) as real
  }

  /** JavaScript `parseFloat` on a string: the longest prefix that reads as
      an optionally signed decimal with an optional fraction; `None` stands
      for NaN (no digit at all). */
  function ParseFloat(s: string): (r: Option<real>)
    ensures r.None? ==> !(s != [] && IsDigit(s[0]))
  {
    var negative := s != [] && s[0] == '-';
    var rest := if s != [] && (s[0] == '-' || s[0] == '+') then s[1..] else s;
    var whole := LeadingDigits(rest);
    var fraction := FractionDigits(rest[|whole|..]);
    if |whole| + |fraction| == 0 then None
    else
      var magnitude := DecimalValue(whole, fraction);
      Some(if negative then -magnitude else magnitude)
  }

  lemma {:induction false} LeadingDigitsOfDigits(s: string)
    requires AllDigits(s)
    ensures LeadingDigits(s) == s
  {
    if s != [] {
      LeadingDigitsOfDigits(s[1..]);
    }
  }

  /** `parseFloat` of a plain run of digits is the number they spell. */
  lemma ParseFloatOfDigits(s: string)
    requires s != [] && AllDigits(s)
    ensures ParseFloat(s) == Some(DigitsValue(s) as real)
  {
    LeadingDigitsOfDigits(s);
    assert IsDigit(s[0]);
    assert s[|s|..] == [];
    assert FractionDigits([]) == [];
    assert DecimalValue(s, []) == DigitsValue(s) as real;
  }

  /** `parseFloat` reads back the decimal text of a natural number,
      such as the ingest defaults '10' and '60'. */
  lemma ParseFloatOfNat(n: nat)
    ensures ParseFloat(NatToString(n)) == Some(n as real)
  {
    NatToStringDigits(n);
    ParseFloatOfDigits(NatToString(n));
  }

  /** ASCII upper-case letters folded to lower case; every other character is kept. */
  function ToLower(c: char): (r: char)
    ensures 'A' <= c <= 'Z' ==> r as int == c as int + 32
    ensures !('A' <= c <= 'Z') ==> r == c
  {
    if 'A' <= c <= 'Z' then (c as int + 32) as char else c
  }

  function LowerCase(s: string): (r: string)
    ensures |r| == |s|
    ensures forall i :: 0 <= i < |s| ==> r[i] == ToLower(s[i])
  {
    if s == [] then [] else [ToLower(s[0])] + LowerCase(s[1..])
  }

  lemma LowerCaseSuffix(s: string, k: nat)
    requires k <= |s|
    ensures LowerCase(s)[k..] == LowerCase(s[k..])
  {
  }

  /** Folding to lower case twice is folding once. */
  lemma LowerCaseIdempotent(s: string)
    ensures LowerCase(LowerCase(s)) == LowerCase(s)
  {
  }

  /** `s` ends in `suffix`, ignoring the case of ASCII letters (`suffix` is
      given in lower case), as `/suffix$/i` tests. */
  predicate EndsWithIgnoreCase(s: string, suffix: string)
  {
    |s| >= |suffix| && LowerCase(s[|s| - |suffix|..]) == suffix
  }

  lemma AppendAssociative(a: string, b: string, c: string)
    ensures (a + b) + c == a + (b + c)
  {
  }
}
