/** The package-wide error conventions of the GlobalIdentity client:
    an optional value, the error values a call can return, and the
    decimal rendering of a status code that the status filters put in
    their one-message error. */
module Errors {

  datatype Option<+T> = None | Some(value: T)

  /** An error returned by a call. `GlobalIdentityError` is the package's
      own error, a list of messages; `ForeignError` stands for an error
      produced by code outside the model (the HTTP transport, the JSON
      decoder), which the calls pass on unchanged. */
  datatype Error = GlobalIdentityError(messages: seq<string>) | ForeignError(description: string)

  predicate IsDigit(c: char) {
    '0' <= c <= '9'
  }

  predicate AllDigits(s: string) {
    forall i :: 0 <= i < |s| ==> IsDigit(s[i])
  }

  function DigitChar(d: nat): (c: char)
    requires d < 10
    ensures IsDigit(c) && c as int - '0' as int == d
  {
    (d + '0' as int) as char
  }

  /** The digits of `n` in base ten, most significant first, without
      leading zeros. */
  function NatDecimal(n: nat): (s: string)
    ensures |s| > 0 && AllDigits(s)
    ensures s[0] == '0' ==> n == 0
  {
    if n < 10 then [DigitChar(n)] else NatDecimal(n / 10) + [DigitChar(n % 10)]
  }

  /** Go's `%d` (and `%v`) rendering of an int: a minus sign for a
      negative value, then the digits of its magnitude. */
  function Decimal(n: int): (s: string)
    ensures |s| > 0
    ensures n >= 0 <==> IsDigit(s[0])
  {
    if n < 0 then "-" + NatDecimal(-n) else NatDecimal(n)
  }

  /** The value of a string of decimal digits. */
  function DigitsValue(s: string): nat
    requires AllDigits(s)
  {
    if s == [] then 0 else DigitsValue(s[..|s| - 1]) * 10 + (s[|s| - 1] as int - '0' as int)
  }

  /** Reads back a rendering made by `Decimal`: an optional minus sign
      followed by at least one digit. */
  function ParseDecimal(s: string): Option<int> {
    if |s| > 0 && AllDigits(s) then Some(DigitsValue(s))
    else if |s| > 1 && s[0] == '-' && AllDigits(s[1..]) then Some(0 - DigitsValue(s[1..]) as int)
    else None
  }

  lemma {:induction false} NatDecimalRoundTrip(n: nat)
    ensures DigitsValue(NatDecimal(n)) == n
  {
    if n >= 10 {
      var s := NatDecimal(n);
      assert s[..|s| - 1] == NatDecimal(n / 10);
      NatDecimalRoundTrip(n / 10);
    }
  }

  /** Distinct status codes render as distinct strings: the decimal text
      determines the value it was made from. */
  lemma DecimalRoundTrip(n: int)
    ensures ParseDecimal(Decimal(n)) == Some(n)
  {
    if n < 0 {
      NatDecimalRoundTrip(-n);
      assert Decimal(n)[1..] == NatDecimal(-n);
    } else {
      NatDecimalRoundTrip(n);
    }
  }
}
