/**
 * Prices as the views read and write them: a currency sign followed by
 * the decimal amount, e.g. "¥1280". A price is read by dropping its first
 * character and parsing the rest (`Double(price.dropFirst()) ?? 0`); only
 * digit strings are modelled, so a fare is a natural number.
 */
module Prices {
  import opened Text
  import opened Wrappers

  /** `String.dropFirst()`: empty for an empty string. */
  function DropFirst(s: string): (r: string)
    ensures s == [] ==> r == []
    ensures s != [] ==> s == [s[0]] + r
  {
    if s == [] then [] else s[1..]
  }

  /** `Double(s)` restricted to digit strings: None for anything else, including "". */
  function ParseAmount(s: string): (r: Option<nat>)
    ensures r.Some? <==> s != [] && AllDigits(s)
  {
    if s != [] && AllDigits(s) then Some(DigitsValue(s)) else None
  }

  /** `Double(price.dropFirst()) ?? 0`. */
  function FareValue(price: string): (v: nat)
  {
    match ParseAmount(DropFirst(price))
    case Some(v) => v
    case None => 0
  }

  /** `"¥\(amount)"`. */
  function Yuan(amount: nat): (s: string)
    ensures |s| >= 2 && s[0] == '¥'
    ensures AllDigits(s[1..])
  {
    "¥" + NatToString(amount)
  }

  /** Yuan and FareValue are inverse: a formatted amount reads back as itself. */
  lemma YuanRoundTrip(amount: nat)
    ensures FareValue(Yuan(amount)) == amount
  {
    var s := Yuan(amount);
    assert DropFirst(s) == NatToString(amount);
    NatToStringRoundTrip(amount);
  }

  /** A currency sign and four digits read as the four-digit number. */
  lemma FourDigitFare(price: string)
    requires |price| == 5 && AllDigits(price[1..])
    ensures FareValue(price) == 1000 * DigitValue(price[1]) + 100 * DigitValue(price[2]) + 10 * DigitValue(price[3]) + DigitValue(price[4])
  {
    var t := price[1..];
    assert DropFirst(price) == t;
    assert t[..4] == t && t[..3][..2] == t[..2] && t[..2][..1] == t[..1] && t[..1][..0] == [];
    assert DigitsValue(t[..1]) == DigitValue(price[1]);
    assert DigitsValue(t[..2]) == 10 * DigitValue(price[1]) + DigitValue(price[2]);
    assert DigitsValue(t[..3]) == 100 * DigitValue(price[1]) + 10 * DigitValue(price[2]) + DigitValue(price[3]);
  }

  /** A price whose tail is empty or not all digits counts as 0. */
  lemma UnparsableFareIsZero(price: string)
    requires |price| <= 1 || !AllDigits(price[1..])
    ensures FareValue(price) == 0
  {
  }
}
