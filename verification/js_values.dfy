/**
 * The slice of JavaScript values the client handles: the primitives its
 * fields and arguments can hold, plain objects (option bundles and header
 * objects), and the two conversions the client relies on -- truthiness
 * (`if (x)`, `x && y`) and string conversion (template literals and
 * `URLSearchParams.append`) -- together with object spread (`{...x}`).
 */
module JsValues {

  /** A JavaScript value. Numbers are restricted to integers. */
  datatype JsValue =
    | Undefined
    | Null
    | Bool(b: bool)
    | Num(n: int)
    | Str(s: string)
    | Obj(props: map<string, JsValue>)

  /** An exception thrown by the client before any network activity. */
  datatype JsError = TypeError(message: string)

  datatype Result<T> = Ok(value: T) | Err(error: JsError)

  /** ToBoolean: the falsy values are undefined, null, false, 0 and "". */
  predicate Truthy(v: JsValue) {
    match v
    case Undefined => false
    case Null => false
    case Bool(b) => b
    case Num(n) => n != 0
    case Str(s) => s != ""
    case Obj(_) => true
  }

  predicate IsDigit(c: char) {
    '0' as int <= c as int <= '9' as int
  }

  function DigitChar(d: nat): (c: char)
    requires d < 10
    ensures IsDigit(c) && c as int - '0' as int == d
  {
    ('0' as int + d) as char
  }

  /** The decimal numeral of a natural number, as Number.prototype.toString prints it. */
  function DecimalString(n: nat): (r: string)
    ensures r != []
    ensures forall i :: 0 <= i < |r| ==> IsDigit(r[i])
    ensures r[0] == '0' <==> n == 0
    ensures n < 10 <==> |r| == 1
  {
    if n < 10 then [DigitChar(n)] else DecimalString(n / 10) + [DigitChar(n % 10)]
  }

  /** Reads a string of digits back as a number. */
  function DigitsValue(s: string): nat
    requires forall i :: 0 <= i < |s| ==> IsDigit(s[i])
  {
    if s == [] then 0
    else
      assert IsDigit(s[|s| - 1]);
      10 * DigitsValue(s[..|s| - 1]) + (s[|s| - 1] as int - '0' as int)
  }

  lemma {:induction false} DecimalStringValue(n: nat)
    ensures DigitsValue(DecimalString(n)) == n
  {
    if n >= 10 {
      var r := DecimalString(n);
      assert r[..|r| - 1] == DecimalString(n / 10);
      DecimalStringValue(n / 10);
    }
  }

  /** An integer numeral: an optional minus sign followed by at least one digit. */
  predicate IsNumeral(r: string) {
    && r != []
    && (r[0] == '-' ==> |r| > 1)
    && forall i :: (if r[0] == '-' then 1 else 0) <= i < |r| ==> IsDigit(r[i])
  }

  function NumeralValue(r: string): int
    requires IsNumeral(r)
  {
    if r[0] == '-' then 0 - DigitsValue(r[1..]) as int else DigitsValue(r)
  }

  /** String(v) for the values above; a plain object prints as "[object Object]". */
  function ToStr(v: JsValue): (r: string)
    ensures r == [] <==> v == Str([])
    ensures v.Num? ==> IsNumeral(r) && (r[0] == '-' <==> v.n < 0)
  {
    match v
    case Undefined => "undefined"
    case Null => "null"
    case Bool(b) => if b then "true" else "false"
    case Num(n) => if n < 0 then "-" + DecimalString(-n) else DecimalString(n)
    case Str(s) => s
    case Obj(_) => "[object Object]"
  }

  /** The numeral String(n) prints reads back as n, negative numbers included. */
  lemma ToStrNumberValue(n: int)
    ensures NumeralValue(ToStr(Num(n))) == n
  {
    if n < 0 {
      DecimalStringValue(-n);
      assert ("-" + DecimalString(-n))[1..] == DecimalString(-n);
    } else {
      DecimalStringValue(n);
    }
  }

  /** The falsy values are exactly undefined, null, false, 0 and the empty string. */
  lemma FalsyValues(v: JsValue)
    ensures !Truthy(v) <==> v == Undefined || v == Null || v == Bool(false) || v == Num(0) || v == Str("")
  {
  }

  /** `k` is the numeral of an index below `n`. */
  predicate IsIndexBelow(k: string, n: nat) {
    && (forall j :: 0 <= j < |k| ==> IsDigit(k[j]))
    && DigitsValue(k) < n
  }

  /**
   * The index properties of a string, as `{..."ab"}` copies them: the key
   * String(i) holds the i-th character; every key is an index numeral,
   * and there are as many keys as characters, so there is no other key.
   */
  function IndexProperties(s: string): (m: map<string, JsValue>)
    ensures forall i :: 0 <= i < |s| ==> DecimalString(i) in m && m[DecimalString(i)] == Str([s[i]])
    ensures forall k :: k in m ==> IsIndexBelow(k, |s|)
    ensures |m| == |s|
  {
    if s == [] then map[]
    else
      var prev := IndexProperties(s[..|s| - 1]);
      IndexPropertiesStep(s[..|s| - 1], s[|s| - 1], prev);
      assert s[..|s| - 1] + [s[|s| - 1]] == s;
      prev[DecimalString(|s| - 1) := Str([s[|s| - 1]])]
  }

  /** One more character adds one fresh index key, and keeps the earlier ones. */
  lemma IndexPropertiesStep(init: string, c: char, prev: map<string, JsValue>)
    requires forall i :: 0 <= i < |init| ==> DecimalString(i) in prev && prev[DecimalString(i)] == Str([init[i]])
    requires forall k :: k in prev ==> IsIndexBelow(k, |init|)
    requires |prev| == |init|
    ensures var s, m := init + [c], prev[DecimalString(|init|) := Str([c])];
      && (forall i :: 0 <= i < |s| ==> DecimalString(i) in m && m[DecimalString(i)] == Str([s[i]]))
      && (forall k :: k in m ==> IsIndexBelow(k, |s|))
      && |m| == |s|
  {
    var key := DecimalString(|init|);
    DecimalStringValue(|init|);
    assert !IsIndexBelow(key, |init|);
  }

  /**
   * The own enumerable properties that `{...v}` copies: those of a plain
   * object, the index properties of a string, and none for undefined,
   * null, booleans and numbers.
   */
  function Spread(v: JsValue): map<string, JsValue> {
    match v
    case Obj(props) => props
    case Str(s) => IndexProperties(s)
    case _ => map[]
  }

  /** Property read `o.key` on a plain object: a missing key reads as undefined. */
  function Get(o: map<string, JsValue>, key: string): JsValue {
    if key in o then o[key] else Undefined
  }
}
