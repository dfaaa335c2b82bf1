/** The decimal conversions the binder relies on: `strconv.Atoi` /
    `strconv.ParseInt(s, 10, 64)` (identical on a 64-bit platform),
    `strconv.ParseBool`, and decimal rendering (`%d`). */
module StrConv {
  import opened Common

  predicate IsDigit(c: char) { '0' <= c <= '9' }

  predicate AllDigits(s: string)
  {
    forall i :: 0 <= i < |s| ==> IsDigit(s[i])
  }

  /** Value of a digit string, most significant digit first. */
  function DigitsValue(s: string): (v: nat)
    requires AllDigits(s)
    decreases |s|
  {
    if |s| == 0 then 0
    else DigitsValue(s[..|s| - 1]) * 10 + (s[|s| - 1] as int - '0' as int)
  }

  /** strconv.ParseInt(s, 10, 64): an optional sign, at least one decimal
      digit and nothing else (no underscores in base 10), and the value must
      fit in int64. Any other input is an error. */
  function ParseInt(s: string): (r: Option<int>)
    ensures r.Some? ==> InInt64(r.value)
    ensures r.Some? ==> |s| > 0
  {
    if |s| == 0 then None
    else
      var signed := s[0] == '-' || s[0] == '+';
      var body := if signed then s[1..] else s;
      if |body| == 0 || !AllDigits(body) then None
      else
        var v: int := if s[0] == '-' then -(DigitsValue(body) as int) else DigitsValue(body);
        if InInt64(v) then Some(v) else None
  }

  /** strconv.ParseBool */
  function ParseBool(s: string): (r: Option<bool>)
    ensures r == Some(true) <==> s in {"1", "t", "T", "TRUE", "true", "True"}
    ensures r == Some(false) <==> s in {"0", "f", "F", "FALSE", "false", "False"}
  {
    if s in {"1", "t", "T", "TRUE", "true", "True"} then Some(true)
    else if s in {"0", "f", "F", "FALSE", "false", "False"} then Some(false)
    else None
  }

  function DigitChar(d: nat): (c: char)
    requires d < 10
    ensures IsDigit(c)
    ensures c as int - '0' as int == d
  {
    ('0' as int + d) as char
  }

  /** Decimal digits of a natural number, no leading zeros. */
  function FormatNat(n: nat): (s: string)
    decreases n
  {
    if n < 10 then [DigitChar(n)] else FormatNat(n / 10) + [DigitChar(n % 10)]
  }

  /** `%d` / strconv.Itoa */
  function FormatInt(n: int): string
  {
    if n < 0 then "-" + FormatNat(-n) else FormatNat(n)
  }

  /** FormatNat produces a non-empty digit string denoting `n`. */
  lemma {:induction false} FormatNatDigits(n: nat)
    ensures |FormatNat(n)| > 0
    ensures AllDigits(FormatNat(n))
    ensures DigitsValue(FormatNat(n)) == n
    decreases n
  {
    var s := FormatNat(n);
    if n >= 10 {
      FormatNatDigits(n / 10);
      assert s[..|s| - 1] == FormatNat(n / 10);
    }
  }

  /** Parsing what FormatInt renders gives the number back, for every int64. */
  lemma ParseFormatRoundTrip(n: int)
    requires InInt64(n)
    ensures ParseInt(FormatInt(n)) == Some(n)
  {
    FormatNatDigits(if n < 0 then -n else n);
    if n < 0 {
      assert FormatInt(n)[1..] == FormatNat(-n);
    } else {
      assert FormatInt(n)[0] != '-' && FormatInt(n)[0] != '+';
    }
  }
}
