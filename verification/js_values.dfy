/**
 * The JavaScript values the statistics table receives, and the three ways the
 * component turns one into text: truthiness tests, template literals
 * (`${v}`) and `Array.prototype.join`.
 *
 * Numbers are modelled as integers; their rendering is the usual decimal form.
 */
module JsValues {

  /** A statistic as it arrives in the props: missing, explicitly null, or a number. */
  datatype JsValue = Undefined | Null | Num(n: int)

  predicate IsDigit(c: char) {
    '0' <= c <= '9'
  }

  /** Characters that can appear in the decimal rendering of an integer. */
  predicate IsNumeral(c: char) {
    IsDigit(c) || c == '-'
  }

  function DigitChar(d: nat): (c: char)
    requires d < 10
    ensures IsDigit(c)
  {
    "0123456789"[d]
  }

  function DigitValue(c: char): (d: nat)
    requires IsDigit(c)
    ensures d < 10
  {
    (c as int - '0' as int) as nat
  }

  /** Decimal digits of a natural number, most significant first, no leading zeros. */
  function NatToString(n: nat): (s: string)
    ensures |s| > 0
    ensures forall i :: 0 <= i < |s| ==> IsDigit(s[i])
    ensures ParseNat(s) == n
    ensures |s| > 1 ==> s[0] != '0'
  {
    if n < 10 then [DigitChar(n)]
    else
      var s := NatToString(n / 10) + [DigitChar(n % 10)];
      assert s[..|s| - 1] == NatToString(n / 10);
      s
  }

  /** Reads a string of decimal digits back as the number it denotes. */
  function ParseNat(s: string): nat
    requires forall i :: 0 <= i < |s| ==> IsDigit(s[i])
  {
    if |s| == 0 then 0 else 10 * ParseNat(s[..|s| - 1]) + DigitValue(s[|s| - 1])
  }

  /**
   * The plain decimal rendering of an integer, as JavaScript prints an
   * integral Number below 10^21 in magnitude (larger ones use exponent form).
   */
  function IntToString(i: int): (s: string)
    ensures |s| > 0
    ensures forall k :: 0 <= k < |s| ==> IsNumeral(s[k])
    ensures (s[0] == '-') <==> i < 0
  {
    if i < 0 then "-" + NatToString(-i) else NatToString(i)
  }

  /** JavaScript truthiness: `undefined`, `null`, `0` (and NaN, not modelled) are falsy. */
  predicate Truthy(v: JsValue) {
    v.Num? && v.n != 0
  }

  /** The text a template literal `${v}` produces. */
  function TemplateString(v: JsValue): string {
    match v
    case Undefined => "undefined"
    case Null => "null"
    case Num(n) => IntToString(n)
  }

  /** The text `Array.prototype.join` produces for one element: null and undefined become empty. */
  function JoinElementString(v: JsValue): string {
    match v
    case Undefined => ""
    case Null => ""
    case Num(n) => IntToString(n)
  }
}
