/** The JavaScript values that the modelled code passes around loosely (form fields, argument
    list entries), with the three conversions it relies on: truthiness (`if (x)`, `&&`,
    `filter(Boolean)`), string conversion (template literals, `String(x)`) and unary plus. */
module Js {

  import opened Strings

  /** Numbers are integers here; `NaN` is kept because unary plus produces it. */
  datatype JsValue = Undefined | Null | Bool(b: bool) | Num(n: int) | NaN | Str(s: string)

  /** `Boolean(v)`. */
  predicate Truthy(v: JsValue)
  {
    match v
    case Undefined => false
    case Null => false
    case Bool(b) => b
    case Num(n) => n != 0
    case NaN => false
    case Str(s) => s != ""
  }

  /** `String(v)`, as a template literal renders it. */
  function ToText(v: JsValue): (r: string)
    ensures Truthy(v) ==> r != ""
  {
    match v
    case Undefined => "undefined"
    case Null => "null"
    case Bool(b) => if b then "true" else "false"
    case Num(n) => IntToString(n)
    case NaN => "NaN"
    case Str(s) => s
  }

  /** Reads an optionally signed run of decimal digits; anything else is `NaN`. */
  function ParseNumber(t: string): (r: JsValue)
    ensures r.Num? || r.NaN?
  {
    if t == [] then Num(0)
    else if t[0] == '-' && |t| > 1 && AllDigits(t[1..]) then Num(-(DigitsValue(t[1..]) as int))
    else if t[0] == '+' && |t| > 1 && AllDigits(t[1..]) then Num(DigitsValue(t[1..]))
    else if AllDigits(t) then Num(DigitsValue(t))
    else NaN
  }

  /** Unary plus `+v`: always a number. */
  function ToNumber(v: JsValue): (r: JsValue)
    ensures r.Num? || r.NaN?
    ensures v.Num? ==> r == v
  {
    match v
    case Undefined => NaN
    case Null => Num(0)
    case Bool(b) => Num(if b then 1 else 0)
    case Num(n) => v
    case NaN => NaN
    case Str(s) => ParseNumber(Trim(s))
  }

  /** A string that neither starts nor ends with white space is its own trim. */
  lemma TrimUnchanged(s: string)
    requires s != [] ==> !IsJsSpace(s[0]) && !IsJsSpace(s[|s| - 1])
    ensures Trim(s) == s
  {
  }

  /** The text of a natural number reads back as that number. */
  lemma NaturalTextRoundTrip(n: nat)
    ensures ParseNumber(Trim(NatToString(n))) == Num(n)
  {
    var t := NatToString(n);
    assert IsDigit(t[0]) && IsDigit(t[|t| - 1]);
    TrimUnchanged(t);
    NatToStringRoundTrip(n);
  }

  /** The text of a negative number reads back as that number. */
  lemma NegativeTextRoundTrip(n: int)
    requires n < 0
    ensures ParseNumber(Trim("-" + NatToString(-n))) == Num(n)
  {
    var d := NatToString(-n);
    var t := "-" + d;
    assert IsDigit(d[|d| - 1]) && t[|t| - 1] == d[|d| - 1];
    TrimUnchanged(t);
    assert t[1..] == d;
    NatToStringRoundTrip(-n);
  }

  /** A number converted to text and read back with unary plus is the same number, as when
      a numeric form field is serialised and converted again. */
  lemma {:induction false} NumberTextRoundTrip(n: int)
    ensures ToNumber(Str(ToText(Num(n)))) == Num(n)
  {
    var t := ToText(Num(n));
    assert ToNumber(Str(t)) == ParseNumber(Trim(t));
    if n >= 0 {
      assert t == NatToString(n);
      NaturalTextRoundTrip(n);
    } else {
      assert t == "-" + NatToString(-n);
      NegativeTextRoundTrip(n);
    }
  }
}
