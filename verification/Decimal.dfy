/**
 Decimal integers as Go's strconv prints and reads them: FormatInt(i, 10), ParseInt(text, 10, 64) and Atoi.
 */
module Decimal {
  import opened Common

  predicate IsDigit(c: char) {
    '0' <= c <= '9'
  }

  function DigitChar(d: nat): (c: char)
    requires d < 10
    ensures IsDigit(c)
  {
    ('0' as int + d) as char
  }

  ghost predicate AllDigits(text: string) {
    forall k :: 0 <= k < |text| ==> IsDigit(text[k])
  }

  function NatText(n: nat): (text: string)
    ensures |text| > 0 && AllDigits(text)
  {
    if n < 10 then [DigitChar(n)] else NatText(n / 10) + [DigitChar(n % 10)]
  }

  function IntText(i: int): string {
    if i < 0 then "-" + NatText(-i) else NatText(i)
  }

  /** None when some character is not a digit, or when there is none. */
  function ParseNat(text: string): Option<nat> {
    if |text| == 0 || !IsDigit(text[|text| - 1]) then None
    else
      var low := text[|text| - 1] as int - '0' as int;
      if |text| == 1 then Some(low)
      else match ParseNat(text[..|text| - 1])
        case None => None
        case Some(high) => Some(10 * high + low)
  }

  /** An optional sign, digits, and a value that fits 64 bits; anything else is an error. */
  function ParseInt(text: string): (r: Option<int>)
    ensures r.Some? ==> IsInt64(r.value)
  {
    var signed := |text| > 0 && (text[0] == '-' || text[0] == '+');
    match ParseNat(if signed then text[1..] else text)
    case None => None
    case Some(n) =>
      var magnitude: int := n;
      var i := if signed && text[0] == '-' then -magnitude else magnitude;
      if IsInt64(i) then Some(i) else None
  }

  lemma {:induction false} ParseNatText(n: nat)
    ensures ParseNat(NatText(n)) == Some(n)
  {
    if n < 10 {
      assert NatText(n)[|NatText(n)| - 1] == DigitChar(n);
    } else {
      ParseNatText(n / 10);
      assert NatText(n)[..|NatText(n)| - 1] == NatText(n / 10);
      assert NatText(n)[|NatText(n)| - 1] == DigitChar(n % 10);
    }
  }

  lemma {:induction false} ParseSigned(digits: string, n: int)
    requires n >= 0 && |digits| > 0 && AllDigits(digits) && ParseNat(digits) == Some(n)
    ensures IsInt64(n) ==> ParseInt(digits) == Some(n)
    ensures IsInt64(-n) ==> ParseInt("-" + digits) == Some(-n)
  {
    assert IsDigit(digits[0]);
    assert ("-" + digits)[1..] == digits;
  }

  lemma {:induction false} ParseIntText(i: int)
    requires IsInt64(i)
    ensures ParseInt(IntText(i)) == Some(i)
  {
    var n := if i < 0 then -i else i;
    ParseNatText(n);
    ParseSigned(NatText(n), n);
  }
}
