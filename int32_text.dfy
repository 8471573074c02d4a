/**
 * Decimal text of 32-bit integers: the `Int32.TryParse(string, out int)`
 * call the validation filter makes (style `NumberStyles.Integer`: optional
 * white space around an optional sign and at least one decimal digit), and
 * `Int32.ToString()` as its partner.
 */
module Int32Text {
  import opened Wrappers

  const Int32Min: int := -0x8000_0000
  const Int32Max: int := 0x7FFF_FFFF

  predicate InInt32(n: int) {
    Int32Min <= n <= Int32Max
  }

  /** The white space `NumberStyles.Integer` skips: U+0009 to U+000D and U+0020. */
  predicate IsWhite(c: char) {
    c == ' ' || ('\t' <= c <= '\r')
  }

  predicate IsDigit(c: char) {
    '0' <= c <= '9'
  }

  predicate AllDigits(s: string) {
    forall i :: 0 <= i < |s| ==> IsDigit(s[i])
  }

  function DigitChar(d: int): (c: char)
    requires 0 <= d < 10
    ensures IsDigit(c)
  {
    ('0' as int + d) as char
  }

  function DigitValue(c: char): (d: int)
    requires IsDigit(c)
    ensures 0 <= d < 10
  {
    c as int - '0' as int
  }

  /** The number a run of decimal digits denotes (leading zeros allowed). */
  function DigitsValue(s: string): (n: nat)
    requires AllDigits(s)
  {
    if s == [] then 0 else DigitsValue(s[..|s| - 1]) * 10 + DigitValue(s[|s| - 1])
  }

  /** The shortest decimal digits of `n`. */
  function Digits(n: nat): (s: string)
    ensures |s| > 0 && AllDigits(s)
  {
    if n < 10 then [DigitChar(n)] else Digits(n / 10) + [DigitChar(n % 10)]
  }

  /** `s` without its leading white space. */
  function TrimStart(s: string): string {
    if s != [] && IsWhite(s[0]) then TrimStart(s[1..]) else s
  }

  /** `s` without its trailing white space. */
  function TrimEnd(s: string): string {
    if s != [] && IsWhite(s[|s| - 1]) then TrimEnd(s[..|s| - 1]) else s
  }

  /** An optional sign followed by at least one decimal digit, and the number it denotes. */
  function SignedValue(t: string): Option<int> {
    if t == [] then None
    else
      var body := if t[0] == '-' || t[0] == '+' then t[1..] else t;
      if body == [] || !AllDigits(body) then None
      else if t[0] == '-' then Some(-(DigitsValue(body) as int))
      else Some(DigitsValue(body))
  }

  lemma {:induction false} TrimStartIsSuffix(s: string)
    ensures |TrimStart(s)| <= |s| && TrimStart(s) == s[|s| - |TrimStart(s)|..]
  {
    if s != [] && IsWhite(s[0]) {
      TrimStartIsSuffix(s[1..]);
    }
  }

  lemma {:induction false} TrimEndIsPrefix(s: string)
    ensures |TrimEnd(s)| <= |s| && TrimEnd(s) == s[..|TrimEnd(s)|]
  {
    if s != [] && IsWhite(s[|s| - 1]) {
      TrimEndIsPrefix(s[..|s| - 1]);
    }
  }

  /**
   * `Int32.TryParse`: the value of the text, or `None` when the text is not
   * an optionally signed decimal integer or lies outside the 32-bit range.
   */
  function TryParseInt32(s: string): (r: Option<int>)
    ensures r.Some? ==> InInt32(r.value)
  {
    var v := SignedValue(TrimEnd(TrimStart(s)));
    if v.Some? && InInt32(v.value) then v else None
  }

  /** `Int32.ToString()`: a minus sign for negative numbers, then the digits. */
  function FormatInt(n: int): (s: string)
    ensures |s| > 0 && IsDigit(s[|s| - 1])
    ensures s[0] == '-' || IsDigit(s[0])
  {
    if n < 0 then "-" + Digits(-n) else Digits(n)
  }

  lemma {:induction false} DigitsRoundTrip(n: nat)
    ensures DigitsValue(Digits(n)) == n
  {
    if n >= 10 {
      var s := Digits(n);
      var prefix := Digits(n / 10);
      assert s[..|s| - 1] == prefix;
      DigitsRoundTrip(n / 10);
    }
  }

  /** Text with no white space at either end is left alone by trimming. */
  lemma TrimUntouched(s: string)
    requires s != [] && !IsWhite(s[0]) && !IsWhite(s[|s| - 1])
    ensures TrimEnd(TrimStart(s)) == s
  {
  }

  /** An integer's text denotes that integer. */
  lemma SignedValueOfFormat(n: int)
    ensures SignedValue(FormatInt(n)) == Some(n)
  {
    var s := FormatInt(n);
    if n < 0 {
      assert s[0] == '-' && s[1..] == Digits(-n);
      DigitsRoundTrip(-n);
    } else {
      assert s == Digits(n) && s[0] != '-' && s[0] != '+';
      DigitsRoundTrip(n);
    }
  }

  /** Every 32-bit integer's text parses back to that integer. */
  lemma FormatParseRoundTrip(n: int)
    requires InInt32(n)
    ensures TryParseInt32(FormatInt(n)) == Some(n)
  {
    TrimUntouched(FormatInt(n));
    SignedValueOfFormat(n);
  }

  /** The text of an integer outside the 32-bit range does not parse. */
  lemma FormatOutOfRangeRejected(n: int)
    requires !InInt32(n)
    ensures TryParseInt32(FormatInt(n)) == None
  {
    TrimUntouched(FormatInt(n));
    SignedValueOfFormat(n);
  }

  /** Text without a single decimal digit never parses. */
  lemma NoDigitsRejected(s: string)
    requires forall i :: 0 <= i < |s| ==> !IsDigit(s[i])
    ensures TryParseInt32(s) == None
  {
    var u := TrimStart(s);
    var t := TrimEnd(u);
    TrimStartIsSuffix(s);
    TrimEndIsPrefix(u);
    if t != [] {
      var body := if t[0] == '-' || t[0] == '+' then t[1..] else t;
      if body != [] {
        var k := if t[0] == '-' || t[0] == '+' then 1 else 0;
        assert body[0] == t[k] == u[k] == s[|s| - |u| + k];
      }
    }
    assert SignedValue(t) == None;
  }
}
