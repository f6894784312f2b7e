/**
  The QVariant values of the decoded map (QVariantMap) and the conversions
  fromQml applies to them.
*/
module Variants {
  import Decimal
  import opened Wrappers
  import opened Keys

  /** A QVariant as it occurs here: invalid (a missing key), a string or a boolean. */
  datatype Variant = Invalid | VString(str: string) | VBool(flag: bool)

  /** A QVariantMap, keyed by the key names (see Keys.KeyName). */
  type VariantMap = map<Key, Variant>

  /** QVariantMap::value: the stored variant, or an invalid one for a missing key. */
  function Lookup(vm: VariantMap, key: Key): Variant {
    if key in vm then vm[key] else Invalid
  }

  function LowerAscii(c: char): char {
    if 'A' <= c <= 'Z' then (c as int - 'A' as int + 'a' as int) as char else c
  }

  function Lower(s: string): (r: string)
    ensures |r| == |s|
  {
    seq(|s|, i requires 0 <= i < |s| => LowerAscii(s[i]))
  }

  /** QVariant::toString(). */
  function ToStr(v: Variant): (s: string)
    ensures v.VString? ==> s == v.str
    ensures v.Invalid? ==> s == ""
    ensures v.VBool? ==> (s == "true" <==> v.flag)
  {
    match v
    case Invalid => ""
    case VString(s) => s
    case VBool(b) => if b then "true" else "false"
  }

  /**
    QVariant::toInt(): a string is read as a 64-bit integer and truncated to
    an `int` (Decimal.ToInt), a boolean is 1 or 0.
  */
  function ToInt(v: Variant): (n: Decimal.Int32)
    ensures v.Invalid? ==> n == 0
    ensures v.VBool? ==> n == (if v.flag then 1 else 0)
    ensures v.VString? && Decimal.ParseInteger(v.str).None? ==> n == 0
    ensures v.VString? && Decimal.ParseInteger(v.str).Some? ==>
      var x := Decimal.ParseInteger(v.str).value;
      Decimal.INT_MIN <= x <= Decimal.INT_MAX ==> n == x
    ensures v.VString? && Decimal.ParseInteger(v.str).Some? ==>
      var x := Decimal.ParseInteger(v.str).value;
      Decimal.LLONG_MIN <= x <= Decimal.LLONG_MAX ==> (n - x) % Decimal.INT_SPAN == 0
  {
    match v
    case Invalid => 0
    case VString(s) => Decimal.ToInt(s)
    case VBool(b) => if b then 1 else 0
  }

  /** QVariant::toBool(): a string is false exactly when, lower-cased, it is "", "0" or "false". */
  function ToBool(v: Variant): (b: bool)
    ensures v.VBool? ==> b == v.flag
    ensures v.Invalid? ==> !b
    ensures v in {VString(""), VString("0"), VString("false"), VString("False"), VString("FALSE")} ==> !b
    ensures v in {VString("true"), VString("1")} ==> b
  {
    match v
    case Invalid => false
    case VString(s) =>
      assert s == "1" ==> Lower(s)[0] == '1';
      !(Lower(s) == "" || Lower(s) == "0" || Lower(s) == "false")
    case VBool(b) => b
  }
}
